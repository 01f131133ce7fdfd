# stock_tracker: FIFO position matching, in Dafny

A model of the core of `code_stock.py`, a tool that replays a trade feed and a
quote feed in time order and pairs every closing fill with the open lots it
closes, first in, first out. Three parts are modelled:

- **`Stock`** (module `Stocks`): one symbol's latest bid and ask and its FIFO
  queue of open lots. A fill of quantity 0 is ignored. A fill on the side of the
  queue (or on an empty queue) opens a lot stamped with the quote in force and
  the liquidity flag computed against it. A fill on the other side closes lots
  from the front, splitting the front lot on a partial close. Each match emits
  one paired trade with its pnl. What is left after every lot is closed reverses
  the position. `compute_liquidity` is the passive / aggressive / n/a table.
- **`StockTracker`** (module `Tracker`): a map from symbol to that symbol's
  state. An entry is created on first sight (bid = ask = 0, nothing open). Each
  message changes its own symbol's entry only.
- **`MessageDispatcher.dispatch_messages`** (module `Dispatcher`): the merge of
  the two feeds. A quote goes first when its time is at or before the pending
  trade's. The run stops right after the last trade.

The model works in the program's own units, with one change: prices are
integer cents. Round-to-2-decimals and the `+ 0` that avoids a printed
`-0.00` are identities on cents, so pnl is exact. Quantities are
unbounded integers, because the source does `int(quantity)` with no sign
check. A negative opening fill is queued as given. A negative closing fill
matches nothing. The queue-invariant lemmas therefore assume non-negative
fills.

Paired trades come back as a sequence of records instead of printed lines.
The registry is passed in and returned explicitly instead of living in a
global. The two feeds arrive already decoded, as sequences.

The files:

- `messages.dfy`: sides, liquidity flags, trade and quote messages.
- `stock.dfy`: the per-symbol state and `process_trade`.
- `stock_lemmas.dfy`: FIFO order, conservation, the queue invariant, reversal, the liquidity table, pnl.
- `tracker.dfy`: the registry.
- `tracker_lemmas.dfy`: well-formedness and independence of symbols.
- `dispatcher.dfy`: the merge as a function, and the source's loop as a method proved equal to it.
- `dispatcher_lemmas.dfy`: the tie-break, the quote prefix, and the end of the run.
- `scenario.dfy`: the repository's `test_trade` replayed, and a tie-break run.

### The `test_trade` replay

`test_stock.py` sends, for `ABC`, all at price 10.06, in this order:

- a quote 10.06/10.07;
- a buy of 0;
- a quote 10.07/10.08;
- a buy of 200 at t=3;
- a quote 10.05/10.06;
- a buy of 300 at t=4;
- sells of 300 at t=5 and 350 at t=6;
- a buy of 400 at t=7.

Following `process_trade`, the paired quantities are 200, 100, 200 and 150, in that order:

- t=5: the t=3 lot of 200 is closed whole, then 100 of the t=4 lot.
- t=6: the 200 left of the t=4 lot is closed, and a short of 150 opens.
- t=7: the short of 150 is closed, and a long of 250 stays open.

The t=3 lot is passive and the t=4 lot aggressive. `Scenario.TestTradeReplay`
proves this sequence. Since every message names `ABC`, the proof follows that
symbol's own run (`Scenario.Run`) and `Scenario.ReplayOneSymbol` carries the
result over to the registry.

## Model

| member | source | states |
|---|---|---|
| Stocks.NewStock | code_stock.py:24-28 | a new symbol starts with no quote (bid = ask = 0) and an empty queue |
| Stocks.HandleQuoteUpdate | code_stock.py:31-33 | both prices are replaced; the symbol and the queue are untouched |
| StockLemmas.QuoteUpdateLastWins | code_stock.py:31-33 | two updates in a row leave exactly what the second alone leaves: no trace of the first |
| Stocks.ProcessTrade | code_stock.py:36-62 | quantity 0 changes nothing and emits nothing; an opening fill (empty queue or same side as the front lot) appends exactly one lot carrying the fill and the quote and liquidity before it, and emits nothing; every pair carries the symbol and the fill's time and side; the quote is never changed by a fill |
| Stocks.ComputeLiquidity | code_stock.py:64-70 | passive exactly when a buy is at or below the bid or a sell at or above the ask; otherwise aggressive exactly when a buy reaches the ask or a sell reaches the bid; n/a exactly when the price is strictly between bid and ask, whatever the side |
| Stocks.Pnl | code_stock.py:76-79 | a long realizes quantity times (close - open), a short quantity times (open - close) |
| Stocks.CreatePairedTrade | code_stock.py:75-83 | a pair takes its open time, side, price, quote and liquidity from the open lot, the same fields for the close from the closing fill, the quantity given, and the pnl of that quantity from open to close |
| Stocks.Settle | code_stock.py:46-58 | the closing loop emits at most one pair per lot; the quantity still owed is the fill less what was matched; if some is still owed, every lot was closed and the queue is empty; a positive fill against a non-empty queue emits at least one pair |
| Stocks.SettleFifo | code_stock.py:49-57 | the i-th pair matches the i-th oldest lot against the fill |
| Stocks.SettleConserves | code_stock.py:49-58 | open quantity left = open quantity before - quantity matched |
| StockLemmas.SettleWholeLots | code_stock.py:55-58 | every lot the loop touches, except the last, is matched for its whole quantity |
| StockLemmas.SettleLeftover | code_stock.py:47-58 | no pair means the queue is untouched; otherwise the last lot touched is matched for at most its quantity, and the queue left is what remains of it (if anything) in front of the untouched lots |
| StockLemmas.SettleMatchesMin | code_stock.py:47-58 | for a non-negative fill on a queue of non-empty lots, the loop matches exactly min(fill, total open) |
| StockLemmas.SettleKeepsShape | code_stock.py:47-58 | the queue left keeps non-empty lots, all on the side the queue held |
| StockLemmas.ProcessTradeInvariant | code_stock.py:36-62 | for a non-negative fill the queue stays one-sided with no empty lot, and the net position moves by +q for a buy and -q for a sell |
| StockLemmas.ClosingFillIsFifo | code_stock.py:46-58 | a positive closing fill emits at least one pair and no more pairs than there are lots, oldest lot first, each against the fill; all but the last take a whole lot; together they match min(fill, total open) |
| StockLemmas.ClosingFillWithinPosition | code_stock.py:47-58 | a closing fill no larger than the position leaves the remainder of the last lot touched in front of the lots it never reached, unchanged |
| StockLemmas.ClosingFillReverses | code_stock.py:47-62 | a closing fill larger than the position closes every lot whole and leaves one lot: the fill with the excess quantity, on the fill's side, with the fill's time, price, quote and liquidity |
| StockLemmas.FillSeesLatestQuote | code_stock.py:31-43 | after a quote update every pair the next fill emits, and the lot an opening fill appends, carry that bid and ask and the liquidity computed against them |
| StockLemmas.LiquidityMirror | code_stock.py:64-70 | buy and sell are mirror images under negating prices and swapping bid with ask |
| StockLemmas.LiquidityUncrossed | code_stock.py:64-70 | with bid < ask: passive iff at or through its own side, aggressive iff at or through the far side, n/a iff strictly inside the spread |
| StockLemmas.PassiveTakesPrecedence | code_stock.py:64-68 | on a locked or crossed quote a price that meets both tests is passive, since that test comes first |
| StockLemmas.PnlSign | code_stock.py:75-78 | for a positive quantity the pnl is positive exactly when a long closed higher or a short closed lower, negative in the mirror cases, and zero exactly when the prices agree |
| StockLemmas.PnlSplits | code_stock.py:76-78 | pnl is additive in quantity, so splitting a lot across several closes realizes the same total |
| Tracker.InitStockIfNew | code_stock.py:109-111 | a new symbol gets a fresh entry; existing entries are kept as they are |
| Tracker.ProcessQuoteMessage | code_stock.py:101-103 | the symbol's bid and ask become the quote's; its queue and every other entry are kept |
| Tracker.ProcessTradeMessage | code_stock.py:105-111 | the fill is applied by `process_trade` to its symbol's entry (a fresh one if the symbol is new), whose result and pairs it returns; every other entry is untouched; every pair emitted is for that symbol; a zero fill leaves it as it was |
| Tracker.ProcessMessage | code_stock.py:101-111 | one message adds its symbol to the registry and leaves every other entry untouched; a quote replaces its symbol's bid and ask and emits nothing; a trade is applied by `process_trade` to its symbol's entry and emits that call's pairs |
| Tracker.Replay | code_stock.py:101-111 | after a run the registry holds exactly the symbols it held before plus those the run mentions |
| TrackerLemmas.ProcessMessageKeyed | code_stock.py:109-111 | every entry stays filed under its own symbol |
| TrackerLemmas.ProcessMessageWellFormed | code_stock.py:101-111 | a message with no negative fill keeps every entry keyed correctly with a valid queue |
| TrackerLemmas.ReplayKeyed | code_stock.py:101-111 | the keying holds after any run |
| TrackerLemmas.ReplayWellFormed | code_stock.py:101-111 | over any run without negative fills, every entry stays keyed correctly with a one-sided queue of non-empty lots |
| TrackerLemmas.ProcessMessageLocal | code_stock.py:101-107 | a message's effect on its own symbol depends only on that symbol's entry |
| TrackerLemmas.ProcessMessageElsewhere | code_stock.py:101-107 | a message leaves every other symbol's entry and pairs alone |
| TrackerLemmas.SymbolsAreIndependent | code_stock.py:101-111 | in a mixed run, a symbol ends with the same entry and the same pairs as a run of its own messages alone |
| Dispatcher.Merge | code_stock.py:140-157 | the merged run dispatches every trade exactly once, in feed order |
| Dispatcher.MergeEndsWithLastTrade | code_stock.py:145-150 | the run ends with the last trade: nothing is dispatched after it |
| Dispatcher.DispatchMessages | code_stock.py:137-157 | the source's loop, with its pending trade, pending quote and end-of-quotes flag, dispatches exactly the merged run and leaves the registry and pairs of replaying it |
| DispatcherLemmas.MergeQuotesArePrefix | code_stock.py:151-157 | the quotes applied are the first ones of the quote feed, in feed order |
| DispatcherLemmas.MergeWithoutQuotes | code_stock.py:145-150 | once the quotes run out, only trades follow, one per remaining trade, in order |
| DispatcherLemmas.MergeTradesFromFeed | code_stock.py:145-150 | every trade dispatched comes from the trade feed |
| DispatcherLemmas.TradeSeesQuotesUpTo | code_stock.py:143-157 | for a time-ordered trade feed, the quotes applied before each trade are the longest prefix of the quote feed stamped at or before that trade, so a quote wins a tie |
| DispatcherLemmas.QuotesUpToSorted | code_stock.py:145 | in a time-ordered quote feed, a quote is in that prefix exactly when its time is at or before the given time |
| DispatcherLemmas.QuoteAppliedBeforeTradeIffNotLater | code_stock.py:143-157 | with both feeds time-ordered, a quote is applied before a trade if and only if it is not later than the trade |
| DispatcherLemmas.TrailingQuotesNeverApplied | code_stock.py:145-157 | for a time-ordered trade feed, the quotes applied are the longest prefix of the quote feed stamped at or before the last trade; nothing after that prefix is applied |
| DispatcherLemmas.AppliedIffNotAfterLastTrade | code_stock.py:143-157 | with both feeds time-ordered, the quotes applied are a prefix of the quote feed, and a quote is applied if and only if it is stamped at or before the last trade |
| Scenario.BuyAtThree | code_stock.py:36-44 | the t=3 buy of 200 on an empty queue opens one lot, passive against the quote 10.07/10.08 |
| Scenario.BuyAtFour | code_stock.py:36-44 | the t=4 buy of 300 on a long queue is queued behind the first lot, aggressive against the quote 10.05/10.06 |
| Scenario.SellAtFive | code_stock.py:47-58 | the t=5 sell of 300 closes the t=3 lot of 200 whole, then 100 of the t=4 lot, leaving 200 of it |
| Scenario.SellAtSix | code_stock.py:47-62 | the t=6 sell of 350 closes the last 200 and opens a short of 150 |
| Scenario.BuyAtSeven | code_stock.py:47-62 | the t=7 buy of 400 closes the short of 150 and opens a long of 250 |
| Scenario.ProcessMessageAlone | code_stock.py:101-111 | on a registry holding at most the message's own symbol, the message leaves a registry holding just that symbol, in the state the message alone takes it to |
| Scenario.ReplayOneSymbol | code_stock.py:101-111 | replaying messages that all name one symbol from an empty registry gives a one-entry registry in the state of that symbol's own run, and that run's pairs |
| Scenario.TestTradeReplay | test_stock.py:15-41 | the test's nine messages produce the pairs 200, 100, 200, 150 at pnl 0 and leave one Buy lot of 250, flagged aggressive |
| Scenario.TieBreakRun | code_stock.py:143-152 | a quote and a trade stamped alike: the quote is applied first, so the fill is passive at the new bid; a quote after the last trade is never applied |

## Left out

- `string_to_message` (code_stock.py:161-188): parsing text fields into numbers is out of scope. On its error path it prints a message, and the following `return message` then raises `UnboundLocalError` (code_stock.py:177-188). The feeds reach the model already decoded.
- File opening, header skipping and `readline` (code_stock.py:134-138, 147, 153), and the command-line entry point (code_stock.py:191-204): these are I/O. The feeds are sequences, and the end of a feed is the end of its sequence.
- The `'%.2f'` formatting and `print` of a paired trade (code_stock.py:80-84). Pairs are returned as records.
- Float rounding and the `+ 0` against a printed `-0.00` (code_stock.py:76, 79): prices are integer cents, where both are identities.
- The global `stockTracker` the dispatcher writes to (code_stock.py:146, 152): the registry is a parameter and a result.
- Side strings other than 'B' and 'S': a side is one of two values. In the source such a string gets liquidity 'n/a'. It opens a lot on an empty queue and adds to a queue whose front lot has the same string, and it closes lots otherwise (code_stock.py:42, 64-70).
- Dispatcher.DispatchMessages: needs both feeds non-empty, because the source reads a first record of each before the loop. An empty feed makes the source fail on a missing record, and that failure is not modelled.
- Stocks.CreatePairedTrade: returns the record that the source formats and prints. The text formatting is not modelled.
- StockLemmas.ProcessTradeInvariant: holds for non-negative fills only. A negative opening fill queues a negative lot, exactly as the source does.
