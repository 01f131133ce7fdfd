/**
 The symbol registry (`StockTracker`): a map from symbol to that symbol's
 state, filled lazily the first time a symbol appears in either feed. Each
 message is routed to its own symbol's entry and touches no other.
 */
module Tracker {
  import opened Messages
  import opened Stocks

  type Registry = map<string, Stock>

  /** The registry after a message, and the paired trades the message emitted. */
  datatype TrackerOutcome = TrackerOutcome(registry: Registry, pairs: seq<PairedTrade>)

  /** The entry a symbol has, or the fresh one it would get on first sight. */
  function Lookup(reg: Registry, symbol: string): Stock {
    if symbol in reg then reg[symbol] else NewStock(symbol)
  }

  /** Every entry is filed under its own symbol. */
  predicate KeyedBySymbol(reg: Registry) {
    forall symbol :: symbol in reg ==> reg[symbol].symbol == symbol
  }

  /** Every entry is filed under its own symbol and its queue keeps the queue invariant. */
  predicate WellFormed(reg: Registry) {
    KeyedBySymbol(reg) && forall symbol :: symbol in reg ==> Valid(reg[symbol].lots)
  }

  /** `init_stock_if_new`: a symbol seen for the first time gets a fresh entry; known symbols are kept. */
  function InitStockIfNew(reg: Registry, symbol: string): (r: Registry)
    ensures r.Keys == reg.Keys + {symbol}
    ensures symbol !in reg ==> r[symbol] == NewStock(symbol)
    ensures forall other :: other in reg ==> r[other] == reg[other]
  {
    if symbol in reg then reg else reg[symbol := NewStock(symbol)]
  }

  /** `process_quote_message`: the symbol's bid and ask are replaced; its queue and every other entry stay. */
  function ProcessQuoteMessage(reg: Registry, q: QuoteMessage): (r: Registry)
    ensures r.Keys == reg.Keys + {q.symbol}
    ensures forall other :: other in reg && other != q.symbol ==> r[other] == reg[other]
    ensures r[q.symbol].bid == q.bid && r[q.symbol].ask == q.ask
    ensures r[q.symbol].lots == Lookup(reg, q.symbol).lots && r[q.symbol].symbol == Lookup(reg, q.symbol).symbol
  {
    var reg' := InitStockIfNew(reg, q.symbol);
    reg'[q.symbol := HandleQuoteUpdate(reg'[q.symbol], q.bid, q.ask)]
  }

  /** `process_trade_message`: the fill is applied to its symbol's entry only. */
  function ProcessTradeMessage(reg: Registry, t: TradeMessage): (r: TrackerOutcome)
    ensures r.registry.Keys == reg.Keys + {t.symbol}
    ensures forall other :: other in reg && other != t.symbol ==> r.registry[other] == reg[other]
    ensures KeyedBySymbol(reg) ==> forall i :: 0 <= i < |r.pairs| ==> r.pairs[i].symbol == t.symbol
    ensures t.quantity == 0 ==> r.pairs == [] && r.registry[t.symbol] == Lookup(reg, t.symbol)
    // the fill reaches its own symbol's entry (a fresh one on first sight)
    ensures var o := ProcessTrade(Lookup(reg, t.symbol), t.time, t.side, t.price, t.quantity);
      r.registry[t.symbol] == o.stock && r.pairs == o.pairs
  {
    var reg' := InitStockIfNew(reg, t.symbol);
    var o := ProcessTrade(reg'[t.symbol], t.time, t.side, t.price, t.quantity);
    TrackerOutcome(reg'[t.symbol := o.stock], o.pairs)
  }

  /** Route one message, from whichever feed, to the registry. */
  function ProcessMessage(reg: Registry, m: Message): (r: TrackerOutcome)
    ensures r.registry.Keys == reg.Keys + {m.Symbol()}
    ensures forall other :: other in reg && other != m.Symbol() ==> r.registry[other] == reg[other]
    // a quote updates its symbol's prices, a trade is applied to its symbol's entry
    ensures m.Quote? ==>
      r.registry[m.quote.symbol] == HandleQuoteUpdate(Lookup(reg, m.quote.symbol), m.quote.bid, m.quote.ask) && r.pairs == []
    ensures m.Trade? ==>
      var o := ProcessTrade(Lookup(reg, m.trade.symbol), m.trade.time, m.trade.side, m.trade.price, m.trade.quantity);
      r.registry[m.trade.symbol] == o.stock && r.pairs == o.pairs
  {
    match m
    case Quote(q) => TrackerOutcome(ProcessQuoteMessage(reg, q), [])
    case Trade(t) => ProcessTradeMessage(reg, t)
  }

  /** The symbols a run of messages mentions. */
  function SymbolsOf(ms: seq<Message>): (symbols: set<string>)
    ensures forall i :: 0 <= i < |ms| ==> ms[i].Symbol() in symbols
    decreases |ms|
  {
    if |ms| == 0 then {} else SymbolsOf(ms[..|ms| - 1]) + {ms[|ms| - 1].Symbol()}
  }

  /** Apply messages in order, collecting the paired trades in the order they are emitted. */
  function Replay(reg: Registry, ms: seq<Message>): (r: TrackerOutcome)
    ensures r.registry.Keys == reg.Keys + SymbolsOf(ms)
    decreases |ms|
  {
    if |ms| == 0 then
      TrackerOutcome(reg, [])
    else
      var before := Replay(reg, ms[..|ms| - 1]);
      var step := ProcessMessage(before.registry, ms[|ms| - 1]);
      TrackerOutcome(step.registry, before.pairs + step.pairs)
  }
}
