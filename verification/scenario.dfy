/**
 Concrete runs. The first replays the repository's own test
 (test_stock.py, `test_trade`) through the registry, with prices in cents;
 the second shows the dispatcher's tie-break on two small feeds.
 */
module Scenario {
  import opened Messages
  import opened Stocks
  import opened Tracker
  import opened Dispatcher

  /** The messages `test_trade` sends, in the order it sends them. */
  function TestTradeMessages(): seq<Message> {
    [ Quote(QuoteMessage(2, "ABC", 1006, 1007)),
      Trade(TradeMessage(2, "ABC", Buy, 1006, 0)),
      Quote(QuoteMessage(2, "ABC", 1007, 1008)),
      Trade(TradeMessage(3, "ABC", Buy, 1006, 200)),
      Quote(QuoteMessage(2, "ABC", 1005, 1006)),
      Trade(TradeMessage(4, "ABC", Buy, 1006, 300)),
      Trade(TradeMessage(5, "ABC", Sell, 1006, 300)),
      Trade(TradeMessage(6, "ABC", Sell, 1006, 350)),
      Trade(TradeMessage(7, "ABC", Buy, 1006, 400)) ]
  }

  /* ---------------------------------------------------------------------- */
  /* The lots and pairs of the `test_trade` run                              */

  /** The t=3 buy of 200, passive: 1006 is at or below the bid 1007. */
  function Lot3(): Lot { Lot(3, 1006, 200, Buy, 1007, 1008, Passive) }

  /** The t=4 buy of 300, aggressive: 1006 is at or above the ask 1006. */
  function Lot4(): Lot { Lot(4, 1006, 300, Buy, 1005, 1006, Aggressive) }

  /** What is left of the t=4 lot after the t=5 sell. */
  function Lot4Rest(): Lot { Lot4().(quantity := 200) }

  /** The short of 150 the t=6 sell leaves. */
  function Lot6(): Lot { Lot(6, 1006, 150, Sell, 1005, 1006, Passive) }

  /** The long of 250 the t=7 buy leaves. */
  function Lot7(): Lot { Lot(7, 1006, 250, Buy, 1005, 1006, Aggressive) }

  function Pair3To5(): PairedTrade {
    PairedTrade(3, 5, "ABC", 200, 0, Buy, Sell, 1006, 1006, 1007, 1005, 1008, 1006, Passive, Passive)
  }

  function Pair4To5(): PairedTrade {
    PairedTrade(4, 5, "ABC", 100, 0, Buy, Sell, 1006, 1006, 1005, 1005, 1006, 1006, Aggressive, Passive)
  }

  function Pair4To6(): PairedTrade {
    PairedTrade(4, 6, "ABC", 200, 0, Buy, Sell, 1006, 1006, 1005, 1005, 1006, 1006, Aggressive, Passive)
  }

  function Pair6To7(): PairedTrade {
    PairedTrade(6, 7, "ABC", 150, 0, Sell, Buy, 1006, 1006, 1005, 1005, 1006, 1006, Passive, Aggressive)
  }

  /** The state of ABC with the given queue and quote. */
  function Abc(lots: seq<Lot>, bid: int, ask: int): Stock { Stock("ABC", lots, bid, ask) }

  /* ---------------------------------------------------------------------- */
  /* The fills, one at a time                                                */

  /** The t=3 buy of 200 on an empty queue opens a lot. */
  lemma BuyAtThree()
    ensures ProcessTrade(Abc([], 1007, 1008), 3, Buy, 1006, 200) == Outcome(Abc([Lot3()], 1007, 1008), [])
  {
    assert [] + [Lot3()] == [Lot3()];
  }

  /** The t=4 buy of 300 on a long queue adds a second lot behind the first. */
  lemma BuyAtFour()
    ensures ProcessTrade(Abc([Lot3()], 1005, 1006), 4, Buy, 1006, 300) == Outcome(Abc([Lot3(), Lot4()], 1005, 1006), [])
  {
    assert [Lot3()] + [Lot4()] == [Lot3(), Lot4()];
  }

  /** The t=5 sell of 300: the t=3 lot of 200 goes whole, then 100 of the t=4 lot. */
  lemma SellAtFive()
    ensures ProcessTrade(Abc([Lot3(), Lot4()], 1005, 1006), 5, Sell, 1006, 300)
         == Outcome(Abc([Lot4Rest()], 1005, 1006), [Pair3To5(), Pair4To5()])
  {
    var queue := [Lot3(), Lot4()];
    var fill := Lot(5, 1006, 300, Sell, 1005, 1006, Passive);
    assert queue[1..] == [Lot4()];
    assert queue[1..][1..] == [];
    assert Settle("ABC", queue[1..], fill, 100).lots == [Lot4Rest()];
  }

  /** The t=6 sell of 350: the 200 left of the t=4 lot goes whole and the position reverses to a short of 150. */
  lemma SellAtSix()
    ensures ProcessTrade(Abc([Lot4Rest()], 1005, 1006), 6, Sell, 1006, 350) == Outcome(Abc([Lot6()], 1005, 1006), [Pair4To6()])
  {
    var queue := [Lot4Rest()];
    assert queue[1..] == [];
  }

  /** The t=7 buy of 400: the short of 150 is closed and the position reverses to a long of 250. */
  lemma BuyAtSeven()
    ensures ProcessTrade(Abc([Lot6()], 1005, 1006), 7, Buy, 1006, 400) == Outcome(Abc([Lot7()], 1005, 1006), [Pair6To7()])
  {
    var queue := [Lot6()];
    assert queue[1..] == [];
  }

  /* ---------------------------------------------------------------------- */
  /* One symbol's run                                                        */

  /** One message applied to its symbol's entry. */
  function Apply(s: Stock, m: Message): Outcome {
    match m
    case Quote(q) => Outcome(HandleQuoteUpdate(s, q.bid, q.ask), [])
    case Trade(t) => ProcessTrade(s, t.time, t.side, t.price, t.quantity)
  }

  /**
   The messages of a single symbol applied to that symbol's entry alone: what
   the registry does for it, without the registry.
   */
  function Run(s: Stock, ms: seq<Message>): Outcome
    decreases |ms|
  {
    if |ms| == 0 then
      Outcome(s, [])
    else
      var before := Run(s, ms[..|ms| - 1]);
      var step := Apply(before.stock, ms[|ms| - 1]);
      Outcome(step.stock, before.pairs + step.pairs)
  }

  /** On a registry holding at most the message's own symbol, the message acts on that entry alone. */
  lemma ProcessMessageAlone(reg: Registry, m: Message)
    requires reg.Keys <= {m.Symbol()}
    ensures var o := Apply(Lookup(reg, m.Symbol()), m);
      ProcessMessage(reg, m) == TrackerOutcome(map[m.Symbol() := o.stock], o.pairs)
  {
    var r := ProcessMessage(reg, m).registry;
    assert r.Keys == {m.Symbol()};
  }

  /**
   Replaying messages that all name one symbol from an empty registry leaves a
   registry holding just that symbol, in the state its own run reaches, and
   emits the pairs of that run.
   */
  lemma {:induction false} ReplayOneSymbol(ms: seq<Message>, symbol: string)
    requires |ms| > 0
    requires forall i :: 0 <= i < |ms| ==> ms[i].Symbol() == symbol
    ensures var o := Run(NewStock(symbol), ms);
      Replay(map[], ms) == TrackerOutcome(map[symbol := o.stock], o.pairs)
    decreases |ms|
  {
    var init := ms[..|ms| - 1];
    var reg: Registry := if |init| == 0 then map[] else map[symbol := Run(NewStock(symbol), init).stock];
    if |init| > 0 {
      ReplayOneSymbol(init, symbol);
    }
    assert Lookup(reg, symbol) == Run(NewStock(symbol), init).stock;
    ProcessMessageAlone(reg, ms[|ms| - 1]);
  }

  /** A trade at position `k` extends the run of the first `k - 1` messages by one fill. */
  lemma RunTrade(ms: seq<Message>, k: nat, s: Stock, before: Outcome, t: TradeMessage, o: Outcome)
    requires 0 < k <= |ms| && ms[k - 1] == Trade(t)
    requires Run(s, ms[..k - 1]) == before
    requires ProcessTrade(before.stock, t.time, t.side, t.price, t.quantity) == o
    ensures Run(s, ms[..k]) == Outcome(o.stock, before.pairs + o.pairs)
  {
    assert ms[..k][..k - 1] == ms[..k - 1];
  }

  /** A quote at position `k` only replaces the prices the run of the first `k - 1` messages reached. */
  lemma RunQuote(ms: seq<Message>, k: nat, s: Stock, before: Outcome, q: QuoteMessage)
    requires 0 < k <= |ms| && ms[k - 1] == Quote(q)
    requires Run(s, ms[..k - 1]) == before
    ensures Run(s, ms[..k]) == Outcome(before.stock.(bid := q.bid, ask := q.ask), before.pairs)
  {
    assert ms[..k][..k - 1] == ms[..k - 1];
  }

  /*
   The lemmas below take the message list as a parameter equal to
   `TestTradeMessages()` rather than calling it, so that the verifier follows
   the run one prefix at a time instead of evaluating it on the whole list.
   */

  /** The first quote sets the prices of the fresh entry. */
  lemma TestTradeAfter1(ms: seq<Message>)
    requires ms == TestTradeMessages()
    ensures Run(NewStock("ABC"), ms[..1]) == Outcome(Abc([], 1006, 1007), [])
  {
    RunQuote(ms, 1, NewStock("ABC"), Outcome(NewStock("ABC"), []), ms[0].quote);
  }

  /** The t=2 fill of 0 changes nothing. */
  lemma TestTradeAfter2(ms: seq<Message>)
    requires ms == TestTradeMessages()
    ensures Run(NewStock("ABC"), ms[..2]) == Outcome(Abc([], 1006, 1007), [])
  {
    TestTradeAfter1(ms);
    var o := ProcessTrade(Abc([], 1006, 1007), 2, Buy, 1006, 0);
    RunTrade(ms, 2, NewStock("ABC"), Outcome(Abc([], 1006, 1007), []), ms[1].trade, o);
  }

  /** The second quote replaces the first. */
  lemma TestTradeAfter3(ms: seq<Message>)
    requires ms == TestTradeMessages()
    ensures Run(NewStock("ABC"), ms[..3]) == Outcome(Abc([], 1007, 1008), [])
  {
    TestTradeAfter2(ms);
    RunQuote(ms, 3, NewStock("ABC"), Outcome(Abc([], 1006, 1007), []), ms[2].quote);
  }

  /** The t=3 fill opens a lot, passive. */
  lemma TestTradeAfter4(ms: seq<Message>)
    requires ms == TestTradeMessages()
    ensures Run(NewStock("ABC"), ms[..4]) == Outcome(Abc([Lot3()], 1007, 1008), [])
  {
    TestTradeAfter3(ms);
    BuyAtThree();
    RunTrade(ms, 4, NewStock("ABC"), Outcome(Abc([], 1007, 1008), []), ms[3].trade, Outcome(Abc([Lot3()], 1007, 1008), []));
  }

  /** The third quote replaces the second; the lot keeps the quote it opened under. */
  lemma TestTradeAfter5(ms: seq<Message>)
    requires ms == TestTradeMessages()
    ensures Run(NewStock("ABC"), ms[..5]) == Outcome(Abc([Lot3()], 1005, 1006), [])
  {
    TestTradeAfter4(ms);
    RunQuote(ms, 5, NewStock("ABC"), Outcome(Abc([Lot3()], 1007, 1008), []), ms[4].quote);
  }

  /** The t=4 fill adds a second lot, aggressive. */
  lemma TestTradeAfter6(ms: seq<Message>)
    requires ms == TestTradeMessages()
    ensures Run(NewStock("ABC"), ms[..6]) == Outcome(Abc([Lot3(), Lot4()], 1005, 1006), [])
  {
    TestTradeAfter5(ms);
    BuyAtFour();
    RunTrade(ms, 6, NewStock("ABC"), Outcome(Abc([Lot3()], 1005, 1006), []), ms[5].trade,
      Outcome(Abc([Lot3(), Lot4()], 1005, 1006), []));
  }

  /** The t=5 sell of 300 takes the t=3 lot whole and 100 of the t=4 lot. */
  lemma TestTradeAfter7(ms: seq<Message>)
    requires ms == TestTradeMessages()
    ensures Run(NewStock("ABC"), ms[..7]) == Outcome(Abc([Lot4Rest()], 1005, 1006), [Pair3To5(), Pair4To5()])
  {
    TestTradeAfter6(ms);
    SellAtFive();
    RunTrade(ms, 7, NewStock("ABC"), Outcome(Abc([Lot3(), Lot4()], 1005, 1006), []), ms[6].trade,
      Outcome(Abc([Lot4Rest()], 1005, 1006), [Pair3To5(), Pair4To5()]));
  }

  /** The t=6 sell of 350 takes the remaining 200 and reverses to a short of 150. */
  lemma TestTradeAfter8(ms: seq<Message>)
    requires ms == TestTradeMessages()
    ensures Run(NewStock("ABC"), ms[..8]) == Outcome(Abc([Lot6()], 1005, 1006), [Pair3To5(), Pair4To5(), Pair4To6()])
  {
    TestTradeAfter7(ms);
    SellAtSix();
    RunTrade(ms, 8, NewStock("ABC"), Outcome(Abc([Lot4Rest()], 1005, 1006), [Pair3To5(), Pair4To5()]), ms[7].trade,
      Outcome(Abc([Lot6()], 1005, 1006), [Pair4To6()]));
    assert [Pair3To5(), Pair4To5()] + [Pair4To6()] == [Pair3To5(), Pair4To5(), Pair4To6()];
  }

  /**
   The whole test through the registry: the four pairs match 200, 100, 200
   and 150, oldest lot first, all at pnl 0 since every fill is at 1006, and
   after the t=7 buy of 400 closes the short of 150 a long of 250 is left open.
   */
  lemma TestTradeReplay(ms: seq<Message>)
    requires ms == TestTradeMessages()
    ensures var r := Replay(map[], ms);
      && r.pairs == [Pair3To5(), Pair4To5(), Pair4To6(), Pair6To7()]
      && r.registry == map["ABC" := Abc([Lot7()], 1005, 1006)]
  {
    TestTradeAfter8(ms);
    BuyAtSeven();
    RunTrade(ms, 9, NewStock("ABC"), Outcome(Abc([Lot6()], 1005, 1006), [Pair3To5(), Pair4To5(), Pair4To6()]), ms[8].trade,
      Outcome(Abc([Lot7()], 1005, 1006), [Pair6To7()]));
    assert ms[..9] == ms;
    assert [Pair3To5(), Pair4To5(), Pair4To6()] + [Pair6To7()] == [Pair3To5(), Pair4To5(), Pair4To6(), Pair6To7()];
    ReplayOneSymbol(ms, "ABC");
  }

  /**
   A quote and a trade stamped alike: the quote is applied first, so the fill
   is classified against it (passive at the bid 1006) and carries its bid and
   ask; the quote stamped after the last trade is never applied.
   */
  lemma TieBreakRun()
    ensures var r := Dispatch(map[], [TradeMessage(5, "ABC", Buy, 1006, 100)],
                              [QuoteMessage(5, "ABC", 1006, 1007), QuoteMessage(6, "ABC", 1010, 1011)]);
      && r.pairs == []
      && r.registry == map["ABC" := Stock("ABC", [Lot(5, 1006, 100, Buy, 1006, 1007, Passive)], 1006, 1007)]
  {
    var trades := [TradeMessage(5, "ABC", Buy, 1006, 100)];
    var quotes := [QuoteMessage(5, "ABC", 1006, 1007), QuoteMessage(6, "ABC", 1010, 1011)];
    assert Merge(trades, quotes[1..]) == [Trade(trades[0])];
    var ms := Merge(trades, quotes);
    assert ms == [Quote(quotes[0]), Trade(trades[0])];
    var lot := Lot(5, 1006, 100, Buy, 1006, 1007, Passive);
    RunQuote(ms, 1, NewStock("ABC"), Outcome(NewStock("ABC"), []), quotes[0]);
    assert [] + [lot] == [lot];
    RunTrade(ms, 2, NewStock("ABC"), Outcome(Abc([], 1006, 1007), []), trades[0], Outcome(Abc([lot], 1006, 1007), []));
    assert ms[..2] == ms;
    ReplayOneSymbol(ms, "ABC");
  }
}
