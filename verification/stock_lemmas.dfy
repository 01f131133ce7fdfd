/**
 Properties of one symbol's position keeper: the FIFO order of the matches,
 the shape of the queue a closing fill leaves, conservation of quantity,
 the queue invariant, and the liquidity decision table.
 */
module StockLemmas {
  import opened Messages
  import opened Stocks

  function Min(a: int, b: int): int {
    if a <= b then a else b
  }

  /* ---------------------------------------------------------------------- */
  /* The closing loop                                                        */

  /**
   What is left of a queue once its first `n` lots were matched, the last of
   them for `taken` units: the rest of that lot, if any, then the untouched lots.
   */
  function Leftover(queue: seq<Lot>, n: int, taken: int): seq<Lot>
    requires 0 < n <= |queue|
  {
    (if taken < queue[n - 1].quantity then [queue[n - 1].(quantity := queue[n - 1].quantity - taken)] else []) + queue[n..]
  }

  /** Every lot the closing loop touches except the last is consumed whole. */
  lemma {:induction false} SettleWholeLots(symbol: string, queue: seq<Lot>, fill: Lot, remaining: int)
    ensures var r := Settle(symbol, queue, fill, remaining);
      forall i :: 0 <= i < |r.pairs| - 1 ==> r.pairs[i].quantity == queue[i].quantity
    decreases |queue|
  {
    if |queue| > 0 && remaining > 0 && queue[0].quantity <= remaining {
      var rest := Settle(symbol, queue[1..], fill, remaining - queue[0].quantity);
      SettleWholeLots(symbol, queue[1..], fill, remaining - queue[0].quantity);
      var r := Settle(symbol, queue, fill, remaining);
      assert r.pairs == [CreatePairedTrade(symbol, queue[0], fill, queue[0].quantity)] + rest.pairs;
      forall i | 1 <= i < |r.pairs| - 1
        ensures r.pairs[i].quantity == queue[i].quantity
      {
        assert r.pairs[i] == rest.pairs[i - 1];
      }
    }
  }

  /** One whole lot consumed in front of a settlement keeps the shape of what is left. */
  lemma LeftoverStep(queue: seq<Lot>, head: PairedTrade, pairs: seq<PairedTrade>, lots: seq<Lot>)
    requires |queue| > 0 && head.quantity == queue[0].quantity && |pairs| <= |queue| - 1
    requires |pairs| == 0 ==> lots == queue[1..]
    requires |pairs| > 0 ==> pairs[|pairs| - 1].quantity <= queue[1..][|pairs| - 1].quantity
    requires |pairs| > 0 ==> lots == Leftover(queue[1..], |pairs|, pairs[|pairs| - 1].quantity)
    ensures var all := [head] + pairs;
      && all[|all| - 1].quantity <= queue[|all| - 1].quantity
      && lots == Leftover(queue, |all|, all[|all| - 1].quantity)
  {
    var all := [head] + pairs;
    var n := |all|;
    if |pairs| > 0 {
      assert all[n - 1] == pairs[n - 2];
      assert queue[n - 1] == queue[1..][n - 2];
      assert queue[n..] == queue[1..][n - 1..];
    } else {
      assert lots == [] + queue[1..];
    }
  }

  /**
   The queue the closing loop leaves is what remains of the last lot it
   touched (if anything) in front of the lots it never reached.
   */
  lemma {:induction false} SettleLeftover(symbol: string, queue: seq<Lot>, fill: Lot, remaining: int, r: Settlement)
    requires r == Settle(symbol, queue, fill, remaining)
    ensures |r.pairs| == 0 ==> r.lots == queue
    ensures |r.pairs| > 0 ==> r.pairs[|r.pairs| - 1].quantity <= queue[|r.pairs| - 1].quantity
    ensures |r.pairs| > 0 ==> r.lots == Leftover(queue, |r.pairs|, r.pairs[|r.pairs| - 1].quantity)
    decreases |queue|, 1
  {
    if |queue| > 0 && remaining > 0 && queue[0].quantity <= remaining {
      SettleLeftoverWhole(symbol, queue, fill, remaining, r);
    } else if |queue| > 0 && remaining > 0 {
      assert r.pairs[0].quantity == remaining;
    }
  }

  /** The case of `SettleLeftover` where the front lot is consumed whole. */
  lemma {:induction false} SettleLeftoverWhole(symbol: string, queue: seq<Lot>, fill: Lot, remaining: int, r: Settlement)
    requires |queue| > 0 && remaining > 0 && queue[0].quantity <= remaining
    requires r == Settle(symbol, queue, fill, remaining)
    ensures |r.pairs| > 0 && r.pairs[|r.pairs| - 1].quantity <= queue[|r.pairs| - 1].quantity
    ensures r.lots == Leftover(queue, |r.pairs|, r.pairs[|r.pairs| - 1].quantity)
    decreases |queue|, 0
  {
    var rest := Settle(symbol, queue[1..], fill, remaining - queue[0].quantity);
    SettleLeftover(symbol, queue[1..], fill, remaining - queue[0].quantity, rest);
    var head := CreatePairedTrade(symbol, queue[0], fill, queue[0].quantity);
    assert r.pairs == [head] + rest.pairs && r.lots == rest.lots;
    LeftoverStep(queue, head, rest.pairs, rest.lots);
  }

  /** The two halves above, together. */
  lemma SettleShape(symbol: string, queue: seq<Lot>, fill: Lot, remaining: int)
    ensures var r := Settle(symbol, queue, fill, remaining);
      && (forall i :: 0 <= i < |r.pairs| - 1 ==> r.pairs[i].quantity == queue[i].quantity)
      && (|r.pairs| == 0 ==> r.lots == queue)
      && (|r.pairs| > 0 ==>
            var n := |r.pairs|;
            var taken := r.pairs[n - 1].quantity;
            && taken <= queue[n - 1].quantity
            && r.lots == Leftover(queue, n, taken))
  {
    SettleWholeLots(symbol, queue, fill, remaining);
    SettleLeftover(symbol, queue, fill, remaining, Settle(symbol, queue, fill, remaining));
  }

  /** On a queue of non-empty lots the loop matches exactly min(remaining, total open). */
  lemma {:induction false} SettleMatchesMin(symbol: string, queue: seq<Lot>, fill: Lot, remaining: int)
    requires Positive(queue) && remaining >= 0
    ensures Matched(Settle(symbol, queue, fill, remaining).pairs) == Min(remaining, Total(queue))
    decreases |queue|
  {
    if |queue| == 0 || remaining <= 0 {
    } else if queue[0].quantity > remaining {
      assert Total(queue) == queue[0].quantity + Total(queue[1..]);
    } else {
      assert Positive(queue[1..]);
      SettleMatchesMin(symbol, queue[1..], fill, remaining - queue[0].quantity);
    }
  }

  /** The closing loop leaves a queue of non-empty lots, all on the side the queue was on. */
  lemma {:induction false} SettleKeepsShape(symbol: string, queue: seq<Lot>, fill: Lot, remaining: int, side: Side)
    requires Positive(queue) && OnSide(queue, side)
    ensures Positive(Settle(symbol, queue, fill, remaining).lots)
    ensures OnSide(Settle(symbol, queue, fill, remaining).lots, side)
    decreases |queue|
  {
    if |queue| == 0 || remaining <= 0 {
    } else if queue[0].quantity > remaining {
    } else {
      SettleKeepsShape(symbol, queue[1..], fill, remaining - queue[0].quantity, side);
    }
  }

  /* ---------------------------------------------------------------------- */
  /* Position bookkeeping                                                    */

  /** A one-sided queue's net position is its total, signed by that side. */
  lemma {:induction false} NetOnSide(lots: seq<Lot>, side: Side)
    requires OnSide(lots, side)
    ensures Net(lots) == Signed(side, Total(lots))
    decreases |lots|
  {
    if |lots| > 0 {
      NetOnSide(lots[1..], side);
    }
  }

  /** Appending a lot adds its quantity to the total. */
  lemma {:induction false} TotalAppend(lots: seq<Lot>, lot: Lot)
    ensures Total(lots + [lot]) == Total(lots) + lot.quantity
    decreases |lots|
  {
    if |lots| == 0 {
      assert lots + [lot] == [lot];
    } else {
      assert (lots + [lot])[1..] == lots[1..] + [lot];
      TotalAppend(lots[1..], lot);
    }
  }

  /* ---------------------------------------------------------------------- */
  /* Fills                                                                   */

  /**
   For a non-negative quantity a fill keeps the queue invariant (one side,
   no empty lot) and moves the net position by the fill's signed quantity.
   */
  lemma ProcessTradeInvariant(s: Stock, time: int, side: Side, price: int, quantity: int)
    requires Valid(s.lots) && quantity >= 0
    ensures Valid(ProcessTrade(s, time, side, price, quantity).stock.lots)
    ensures Net(ProcessTrade(s, time, side, price, quantity).stock.lots) == Net(s.lots) + Signed(side, quantity)
  {
    var r := ProcessTrade(s, time, side, price, quantity);
    var fill := EntryLot(s, time, side, price, quantity);
    if quantity == 0 {
    } else if Opens(s.lots, side) {
      assert OnSide(r.stock.lots, side);
      NetOnSide(s.lots, side);
      NetOnSide(r.stock.lots, side);
      TotalAppend(s.lots, fill);
    } else {
      var held := s.lots[0].side;
      assert side != held;
      var settled := Settle(s.symbol, s.lots, fill, quantity);
      SettleKeepsShape(s.symbol, s.lots, fill, quantity, held);
      SettleMatchesMin(s.symbol, s.lots, fill, quantity);
      SettleConserves(s.symbol, s.lots, fill, quantity);
      NetOnSide(s.lots, held);
      if settled.remaining > 0 {
        assert r.stock.lots == [fill.(quantity := settled.remaining)];
        assert OnSide(r.stock.lots, side);
        NetOnSide(r.stock.lots, side);
      } else {
        assert r.stock.lots == settled.lots;
        NetOnSide(settled.lots, held);
      }
    }
  }

  /**
   A closing fill (the queue holds the other side) of positive quantity emits
   its pairs oldest lot first, consumes whole every lot before the last one it
   touches, and matches min(fill, total open) in all.
   */
  lemma ClosingFillIsFifo(s: Stock, time: int, side: Side, price: int, quantity: int)
    requires Valid(s.lots) && quantity > 0 && !Opens(s.lots, side)
    ensures var r := ProcessTrade(s, time, side, price, quantity);
      && 0 < |r.pairs| <= |s.lots|
      && (forall i :: 0 <= i < |r.pairs| ==>
            r.pairs[i] == CreatePairedTrade(s.symbol, s.lots[i], EntryLot(s, time, side, price, quantity), r.pairs[i].quantity))
      && (forall i :: 0 <= i < |r.pairs| - 1 ==> r.pairs[i].quantity == s.lots[i].quantity)
      && Matched(r.pairs) == Min(quantity, Total(s.lots))
  {
    var fill := EntryLot(s, time, side, price, quantity);
    var settled := Settle(s.symbol, s.lots, fill, quantity);
    assert ProcessTrade(s, time, side, price, quantity).pairs == settled.pairs;
    SettleFifo(s.symbol, s.lots, fill, quantity);
    SettleShape(s.symbol, s.lots, fill, quantity);
    SettleMatchesMin(s.symbol, s.lots, fill, quantity);
  }

  /**
   A closing fill no larger than the open position leaves the lots it never
   reached untouched, behind whatever remains of the last lot it touched.
   */
  lemma ClosingFillWithinPosition(s: Stock, time: int, side: Side, price: int, quantity: int)
    requires Valid(s.lots) && 0 < quantity <= Total(s.lots) && !Opens(s.lots, side)
    ensures var r := ProcessTrade(s, time, side, price, quantity);
      && 0 < |r.pairs|
      && var n := |r.pairs|;
         var taken := r.pairs[n - 1].quantity;
         n <= |s.lots| && r.stock.lots == Leftover(s.lots, n, taken)
  {
    var fill := EntryLot(s, time, side, price, quantity);
    var settled := Settle(s.symbol, s.lots, fill, quantity);
    SettleShape(s.symbol, s.lots, fill, quantity);
    SettleMatchesMin(s.symbol, s.lots, fill, quantity);
    assert settled.remaining == 0;
    assert ProcessTrade(s, time, side, price, quantity) == Outcome(s.(lots := settled.lots), settled.pairs);
  }

  /**
   A closing fill larger than the open position closes every lot whole and
   reverses the position: one lot is left, on the fill's side, holding the
   excess and stamped with the fill's time, price, quote and liquidity.
   */
  lemma ClosingFillReverses(s: Stock, time: int, side: Side, price: int, quantity: int)
    requires Valid(s.lots) && quantity > Total(s.lots) && !Opens(s.lots, side)
    ensures var r := ProcessTrade(s, time, side, price, quantity);
      && |r.pairs| == |s.lots|
      && (forall i :: 0 <= i < |r.pairs| ==> r.pairs[i].quantity == s.lots[i].quantity)
      && r.stock.lots == [EntryLot(s, time, side, price, quantity - Total(s.lots))]
  {
    var fill := EntryLot(s, time, side, price, quantity);
    var settled := Settle(s.symbol, s.lots, fill, quantity);
    SettleShape(s.symbol, s.lots, fill, quantity);
    SettleMatchesMin(s.symbol, s.lots, fill, quantity);
    var r := ProcessTrade(s, time, side, price, quantity);
    assert settled.remaining == quantity - Total(s.lots) > 0;
    assert r.pairs == settled.pairs;
    assert r.stock.lots == [fill.(quantity := settled.remaining)];
    var n := |settled.pairs|;
    assert settled.lots == [] && n == |s.lots|;
    assert settled.pairs[n - 1].quantity == s.lots[n - 1].quantity by {
      assert settled.pairs[n - 1].quantity <= s.lots[n - 1].quantity;
    }
  }

  /* ---------------------------------------------------------------------- */
  /* Quotes and liquidity                                                    */

  /** Only the latest quote matters: a second update overwrites the first entirely. */
  lemma QuoteUpdateLastWins(s: Stock, bid1: int, ask1: int, bid2: int, ask2: int)
    ensures HandleQuoteUpdate(HandleQuoteUpdate(s, bid1, ask1), bid2, ask2) == HandleQuoteUpdate(s, bid2, ask2)
  {
  }

  /**
   A fill is stamped with the quote in force when it arrives: after an
   update to (bid, ask), the lot it opens and every pair it closes carry that
   bid and ask and the liquidity computed against them.
   */
  lemma FillSeesLatestQuote(s: Stock, bid: int, ask: int, time: int, side: Side, price: int, quantity: int)
    ensures var r := ProcessTrade(HandleQuoteUpdate(s, bid, ask), time, side, price, quantity);
      && (forall i :: 0 <= i < |r.pairs| ==>
            r.pairs[i].closeBid == bid && r.pairs[i].closeAsk == ask
            && r.pairs[i].closeLiquidity == ComputeLiquidity(side, price, bid, ask))
      && (quantity != 0 && Opens(s.lots, side) ==>
            var last := r.stock.lots[|r.stock.lots| - 1];
            last.bid == bid && last.ask == ask && last.liquidity == ComputeLiquidity(side, price, bid, ask))
  {
    var q := HandleQuoteUpdate(s, bid, ask);
    if quantity != 0 && !Opens(q.lots, side) {
      var fill := EntryLot(q, time, side, price, quantity);
      var settled := Settle(q.symbol, q.lots, fill, quantity);
      SettleFifo(q.symbol, q.lots, fill, quantity);
      assert forall i :: 0 <= i < |settled.pairs| ==>
        settled.pairs[i] == CreatePairedTrade(q.symbol, q.lots[i], fill, settled.pairs[i].quantity);
    }
  }

  /**
   Buy and Sell are mirror images: negating every price and swapping bid with
   ask turns a Buy into a Sell with the same classification.
   */
  lemma LiquidityMirror(price: int, bid: int, ask: int)
    ensures ComputeLiquidity(Buy, price, bid, ask) == ComputeLiquidity(Sell, -price, -ask, -bid)
    ensures ComputeLiquidity(Sell, price, bid, ask) == ComputeLiquidity(Buy, -price, -ask, -bid)
  {
  }

  /**
   Against an ordinary quote (bid below ask) the table reads: a fill at or
   beyond its own side of the quote is passive, one at or beyond the far side
   is aggressive, and one strictly inside the spread is n/a.
   */
  lemma LiquidityUncrossed(side: Side, price: int, bid: int, ask: int)
    requires bid < ask
    ensures ComputeLiquidity(side, price, bid, ask) == Passive <==>
      (if side == Buy then price <= bid else price >= ask)
    ensures ComputeLiquidity(side, price, bid, ask) == Aggressive <==>
      (if side == Buy then price >= ask else price <= bid)
    ensures ComputeLiquidity(side, price, bid, ask) == NotApplicable <==> bid < price < ask
  {
  }

  /** On a locked or crossed quote a price meeting both tests is classified passive. */
  lemma PassiveTakesPrecedence(side: Side, price: int, bid: int, ask: int)
    requires ask <= price <= bid
    ensures ComputeLiquidity(side, price, bid, ask) == Passive
  {
  }

  /* ---------------------------------------------------------------------- */
  /* Pnl                                                                     */

  /**
   A match gains exactly when it closed on the right side of the opening
   price (higher for a long lot, lower for a short one), and is flat exactly
   when the two prices agree.
   */
  lemma PnlSign(symbol: string, open: Lot, close: Lot, quantity: int)
    requires quantity > 0
    ensures var p := CreatePairedTrade(symbol, open, close, quantity);
      && (p.pnl > 0 <==> (open.side == Buy && close.price > open.price) || (open.side == Sell && close.price < open.price))
      && (p.pnl < 0 <==> (open.side == Buy && close.price < open.price) || (open.side == Sell && close.price > open.price))
      && (p.pnl == 0 <==> close.price == open.price)
  {
  }

  /**
   Splitting a match into two smaller ones does not change the pnl, so FIFO
   splitting of a lot across several closes realizes the same amount.
   */
  lemma PnlSplits(openSide: Side, openPrice: int, closePrice: int, q1: int, q2: int)
    ensures Pnl(openSide, openPrice, closePrice, q1 + q2) ==
            Pnl(openSide, openPrice, closePrice, q1) + Pnl(openSide, openPrice, closePrice, q2)
  {
    var d := closePrice - openPrice;
    assert (q1 + q2) * d == q1 * d + q2 * d;
  }
}
