/**
 The temporal merge of `MessageDispatcher.dispatch_messages`: the trade feed
 and the quote feed are interleaved by timestamp, a quote going first when
 its time is at or before the pending trade's, and the run ends right after
 the last trade, leaving any later quotes unapplied. Both feeds arrive as
 already-decoded sequences; the registry is passed in explicitly.
 */
module Dispatcher {
  import opened Messages
  import opened Stocks
  import opened Tracker

  /** The trades of a run of messages, in order. */
  function TradesOf(ms: seq<Message>): seq<TradeMessage>
    decreases |ms|
  {
    if |ms| == 0 then []
    else (if ms[0].Trade? then [ms[0].trade] else []) + TradesOf(ms[1..])
  }

  /** The quotes of a run of messages, in order. */
  function QuotesOf(ms: seq<Message>): seq<QuoteMessage>
    decreases |ms|
  {
    if |ms| == 0 then []
    else (if ms[0].Quote? then [ms[0].quote] else []) + QuotesOf(ms[1..])
  }

  lemma QuotesOfCons(m: Message, rest: seq<Message>)
    ensures QuotesOf([m] + rest) == (if m.Quote? then [m.quote] else []) + QuotesOf(rest)
    ensures TradesOf([m] + rest) == (if m.Trade? then [m.trade] else []) + TradesOf(rest)
  {
    assert ([m] + rest)[1..] == rest;
  }

  /**
   The order in which messages are dispatched, with `trades[0]` the pending
   trade and `quotes[0]` (if any) the pending quote. An empty `quotes` is the
   state after the quote feed ran out.
   */
  function Merge(trades: seq<TradeMessage>, quotes: seq<QuoteMessage>): (r: seq<Message>)
    requires |trades| > 0
    // every trade exactly once, in feed order
    ensures TradesOf(r) == trades
    decreases |trades| + |quotes|
  {
    if |quotes| > 0 && quotes[0].time <= trades[0].time then
      var rest := Merge(trades, quotes[1..]);
      QuotesOfCons(Quote(quotes[0]), rest);
      [Quote(quotes[0])] + rest
    else if |trades| == 1 then
      QuotesOfCons(Trade(trades[0]), []);
      [Trade(trades[0])]
    else
      var rest := Merge(trades[1..], quotes);
      QuotesOfCons(Trade(trades[0]), rest);
      assert [trades[0]] + trades[1..] == trades;
      [Trade(trades[0])] + rest
  }

  /** The run ends with the last trade: no quote is applied after it. */
  lemma {:induction false} MergeEndsWithLastTrade(trades: seq<TradeMessage>, quotes: seq<QuoteMessage>)
    requires |trades| > 0
    ensures var r := Merge(trades, quotes); |r| > 0 && r[|r| - 1] == Trade(trades[|trades| - 1])
    decreases |trades| + |quotes|
  {
    if |quotes| > 0 && quotes[0].time <= trades[0].time {
      MergeEndsWithLastTrade(trades, quotes[1..]);
    } else if |trades| > 1 {
      MergeEndsWithLastTrade(trades[1..], quotes);
    }
  }

  /**
   One step of the merge, seen from the loop: whatever was dispatched so far
   followed by the rest of the merge is the whole run, before and after
   dispatching the message the tie-break picks.
   */
  lemma MergeStep(trades: seq<TradeMessage>, quotes: seq<QuoteMessage>, done: seq<Message>, whole: seq<Message>)
    requires |trades| > 0 && done + Merge(trades, quotes) == whole
    ensures |quotes| > 0 && quotes[0].time <= trades[0].time ==>
      (done + [Quote(quotes[0])]) + Merge(trades, quotes[1..]) == whole
    ensures !(|quotes| > 0 && quotes[0].time <= trades[0].time) && |trades| > 1 ==>
      (done + [Trade(trades[0])]) + Merge(trades[1..], quotes) == whole
    ensures !(|quotes| > 0 && quotes[0].time <= trades[0].time) && |trades| == 1 ==>
      done + [Trade(trades[0])] == whole
  {
    if |quotes| > 0 && quotes[0].time <= trades[0].time {
      var rest := Merge(trades, quotes[1..]);
      assert Merge(trades, quotes) == [Quote(quotes[0])] + rest;
      assert done + ([Quote(quotes[0])] + rest) == (done + [Quote(quotes[0])]) + rest;
    } else if |trades| > 1 {
      var rest := Merge(trades[1..], quotes);
      assert Merge(trades, quotes) == [Trade(trades[0])] + rest;
      assert done + ([Trade(trades[0])] + rest) == (done + [Trade(trades[0])]) + rest;
    } else {
      assert Merge(trades, quotes) == [Trade(trades[0])];
    }
  }

  /** Replaying one more message is one more registry step. */
  lemma ReplaySnoc(reg: Registry, ms: seq<Message>, m: Message)
    ensures Replay(reg, ms + [m]) ==
      var before := Replay(reg, ms);
      var step := ProcessMessage(before.registry, m);
      TrackerOutcome(step.registry, before.pairs + step.pairs)
  {
    assert (ms + [m])[..|ms|] == ms;
  }

  /**
   `dispatch_messages` over decoded feeds: each feed must hold at least one
   record, since the first record of each is read before the loop starts.
   */
  function Dispatch(reg: Registry, trades: seq<TradeMessage>, quotes: seq<QuoteMessage>): TrackerOutcome
    requires |trades| > 0 && |quotes| > 0
  {
    Replay(reg, Merge(trades, quotes))
  }

  /**
   The dispatch loop as the source writes it: a pending trade and a pending
   quote, an end-of-quotes flag, and a loop that stops as soon as the trade
   feed has nothing after the trade just dispatched.
   */
  method DispatchMessages(reg: Registry, trades: seq<TradeMessage>, quotes: seq<QuoteMessage>)
    returns (dispatched: seq<Message>, tracker: Registry, pairs: seq<PairedTrade>)
    requires |trades| > 0 && |quotes| > 0
    ensures dispatched == Merge(trades, quotes)
    ensures TrackerOutcome(tracker, pairs) == Dispatch(reg, trades, quotes)
  {
    dispatched, tracker, pairs := [], reg, [];
    var t, q := 0, 0;
    var currTrade := trades[0];
    var currQuote := quotes[0];
    var endOfQuotes := false;
    while true
      invariant 0 <= t < |trades| && 0 <= q <= |quotes|
      invariant currTrade == trades[t]
      invariant endOfQuotes <==> q == |quotes|
      invariant !endOfQuotes ==> currQuote == quotes[q]
      invariant dispatched + Merge(trades[t..], quotes[q..]) == Merge(trades, quotes)
      invariant Replay(reg, dispatched) == TrackerOutcome(tracker, pairs)
      decreases |trades| - t + |quotes| - q
    {
      var m: Message;
      if currTrade.time < currQuote.time || endOfQuotes {
        m := Trade(currTrade);
        MergeStep(trades[t..], quotes[q..], dispatched, Merge(trades, quotes));
        assert trades[t..][1..] == trades[t + 1..];
      } else {
        m := Quote(currQuote);
        MergeStep(trades[t..], quotes[q..], dispatched, Merge(trades, quotes));
        assert quotes[q..][1..] == quotes[q + 1..];
      }
      var step := ProcessMessage(tracker, m);
      ReplaySnoc(reg, dispatched, m);
      dispatched, tracker, pairs := dispatched + [m], step.registry, pairs + step.pairs;
      if m.Trade? {
        if t + 1 == |trades| {
          break;
        }
        t := t + 1;
        currTrade := trades[t];
      } else {
        q := q + 1;
        if q == |quotes| {
          endOfQuotes := true;
          continue;
        }
        currQuote := quotes[q];
      }
    }
  }
}
