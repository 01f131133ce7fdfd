/**
 The already-decoded events the tracker consumes: one trade fill or one
 quote update per line of the two input feeds. Prices are integer cents,
 times are the feeds' integer timestamps.
 */
module Messages {

  /** The side of a fill: 'B' or 'S' in the feeds. */
  datatype Side = Buy | Sell

  /** The liquidity flag of a fill: 'P', 'A' or 'n/a'. */
  datatype Liquidity = Passive | Aggressive | NotApplicable

  /** One line of the trade feed. The quantity is whatever integer the feed carried. */
  datatype TradeMessage = TradeMessage(time: int, symbol: string, side: Side, price: int, quantity: int)

  /** One line of the quote feed: the new best bid and ask of a symbol. */
  datatype QuoteMessage = QuoteMessage(time: int, symbol: string, bid: int, ask: int)

  /** A message routed to the tracker, whichever feed it came from. */
  datatype Message = Trade(trade: TradeMessage) | Quote(quote: QuoteMessage)
  {
    function Symbol(): string {
      match this
      case Trade(t) => t.symbol
      case Quote(q) => q.symbol
    }
  }

  /** A quantity signed by the direction of the position it builds: long for Buy, short for Sell. */
  function Signed(s: Side, quantity: int): int {
    if s == Buy then quantity else -quantity
  }
}
