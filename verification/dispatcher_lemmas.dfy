/**
 Properties of the temporal merge: the quotes applied are an in-order prefix
 of the quote feed, only trades follow once the quotes run out, and, for a
 time-ordered trade feed, each trade is dispatched after the longest prefix
 of the quote feed stamped at or before it (so a quote wins a tie); when the
 quote feed is time-ordered too, that is exactly the quotes not later than it.
 */
module DispatcherLemmas {
  import opened Messages
  import opened Dispatcher

  /** A feed in non-decreasing time order. */
  predicate TradesSorted(trades: seq<TradeMessage>) {
    forall i, j :: 0 <= i <= j < |trades| ==> trades[i].time <= trades[j].time
  }

  predicate QuotesSorted(quotes: seq<QuoteMessage>) {
    forall i, j :: 0 <= i <= j < |quotes| ==> quotes[i].time <= quotes[j].time
  }

  /** Length of the longest prefix of the quote feed stamped at or before `time`. */
  function QuotesUpTo(quotes: seq<QuoteMessage>, time: int): (n: nat)
    ensures n <= |quotes|
    decreases |quotes|
  {
    if |quotes| > 0 && quotes[0].time <= time then 1 + QuotesUpTo(quotes[1..], time) else 0
  }

  lemma {:induction false} QuotesOfAppend(a: seq<Message>, b: seq<Message>)
    ensures QuotesOf(a + b) == QuotesOf(a) + QuotesOf(b)
    decreases |a|
  {
    if |a| == 0 {
      assert a + b == b;
    } else {
      assert a + b == [a[0]] + (a[1..] + b);
      assert a == [a[0]] + a[1..];
      QuotesOfCons(a[0], a[1..] + b);
      QuotesOfCons(a[0], a[1..]);
      QuotesOfAppend(a[1..], b);
    }
  }

  /** The quotes dispatched are the first ones of the quote feed, in feed order. */
  lemma {:induction false} MergeQuotesArePrefix(trades: seq<TradeMessage>, quotes: seq<QuoteMessage>)
    requires |trades| > 0
    ensures var applied := QuotesOf(Merge(trades, quotes));
      |applied| <= |quotes| && applied == quotes[..|applied|]
    decreases |trades| + |quotes|
  {
    if |quotes| > 0 && quotes[0].time <= trades[0].time {
      var rest := Merge(trades, quotes[1..]);
      MergeQuotesArePrefix(trades, quotes[1..]);
      QuotesOfCons(Quote(quotes[0]), rest);
      var applied := QuotesOf(rest);
      assert [quotes[0]] + quotes[1..][..|applied|] == quotes[..|applied| + 1];
    } else if |trades| > 1 {
      MergeQuotesArePrefix(trades[1..], quotes);
      QuotesOfCons(Trade(trades[0]), Merge(trades[1..], quotes));
    } else {
      QuotesOfCons(Trade(trades[0]), []);
    }
  }

  /** Once the quote feed has run out only trades follow, one per remaining trade, in order. */
  lemma {:induction false} MergeWithoutQuotes(trades: seq<TradeMessage>)
    requires |trades| > 0
    ensures var r := Merge(trades, []);
      |r| == |trades| && forall i :: 0 <= i < |r| ==> r[i] == Trade(trades[i])
    decreases |trades|
  {
    if |trades| > 1 {
      MergeWithoutQuotes(trades[1..]);
    }
  }

  /** Every trade dispatched comes from the trade feed. */
  lemma {:induction false} MergeTradesFromFeed(trades: seq<TradeMessage>, quotes: seq<QuoteMessage>)
    requires |trades| > 0
    ensures forall i :: 0 <= i < |Merge(trades, quotes)| && Merge(trades, quotes)[i].Trade? ==>
      Merge(trades, quotes)[i].trade in trades
    decreases |trades| + |quotes|
  {
    var r := Merge(trades, quotes);
    if |quotes| > 0 && quotes[0].time <= trades[0].time {
      MergeTradesFromFeed(trades, quotes[1..]);
      assert forall i :: 0 < i < |r| ==> r[i] == Merge(trades, quotes[1..])[i - 1];
    } else if |trades| > 1 {
      var rest := Merge(trades[1..], quotes);
      MergeTradesFromFeed(trades[1..], quotes);
      forall i | 0 <= i < |r| && r[i].Trade?
        ensures r[i].trade in trades
      {
        if i > 0 {
          assert r[i] == rest[i - 1];
          assert rest[i - 1].trade in trades[1..];
        }
      }
    }
  }

  lemma SortedTail(trades: seq<TradeMessage>)
    requires |trades| > 0 && TradesSorted(trades)
    ensures TradesSorted(trades[1..])
  {
  }

  lemma SortedFirstIsEarliest(trades: seq<TradeMessage>, t: TradeMessage)
    requires TradesSorted(trades) && t in trades
    ensures trades[0].time <= t.time
  {
    var j :| 0 <= j < |trades| && trades[j] == t;
  }

  /** Appending one quote in front adds it in front of the quotes seen. */
  lemma SeenAfterQuote(q: QuoteMessage, quotes: seq<QuoteMessage>, rest: seq<Message>, i: int, time: int)
    requires |quotes| > 0 && q == quotes[0] && q.time <= time && 0 < i <= |rest| + 1
    requires QuotesOf(rest[..i - 1]) == quotes[1..][..QuotesUpTo(quotes[1..], time)]
    ensures QuotesOf(([Quote(q)] + rest)[..i]) == quotes[..QuotesUpTo(quotes, time)]
  {
    assert ([Quote(q)] + rest)[..i] == [Quote(q)] + rest[..i - 1];
    QuotesOfCons(Quote(q), rest[..i - 1]);
    var n := QuotesUpTo(quotes[1..], time);
    assert quotes[..n + 1] == [quotes[0]] + quotes[1..][..n];
  }

  /** Appending one trade in front changes nothing about the quotes seen. */
  lemma SeenAfterTrade(t: TradeMessage, rest: seq<Message>, i: int)
    requires 0 < i <= |rest| + 1
    ensures QuotesOf(([Trade(t)] + rest)[..i]) == QuotesOf(rest[..i - 1])
  {
    assert ([Trade(t)] + rest)[..i] == [Trade(t)] + rest[..i - 1];
    QuotesOfCons(Trade(t), rest[..i - 1]);
  }

  /**
   For a time-ordered trade feed, the quotes dispatched before the trade at
   position `i` of the run are exactly the longest prefix of the quote feed
   stamped at or before that trade's time: a quote at the same time as a
   trade goes first.
   */
  lemma {:induction false} TradeSeesQuotesUpTo(trades: seq<TradeMessage>, quotes: seq<QuoteMessage>, i: int)
    requires |trades| > 0 && TradesSorted(trades)
    requires 0 <= i < |Merge(trades, quotes)| && Merge(trades, quotes)[i].Trade?
    ensures QuotesOf(Merge(trades, quotes)[..i]) == quotes[..QuotesUpTo(quotes, Merge(trades, quotes)[i].trade.time)]
    decreases |trades| + |quotes|
  {
    var r := Merge(trades, quotes);
    if |quotes| > 0 && quotes[0].time <= trades[0].time {
      var rest := Merge(trades, quotes[1..]);
      assert r == [Quote(quotes[0])] + rest;
      assert i > 0 && r[i] == rest[i - 1];
      TradeSeesQuotesUpTo(trades, quotes[1..], i - 1);
      MergeTradesFromFeed(trades, quotes[1..]);
      SortedFirstIsEarliest(trades, rest[i - 1].trade);
      SeenAfterQuote(quotes[0], quotes, rest, i, r[i].trade.time);
    } else if i > 0 {
      var rest := Merge(trades[1..], quotes);
      assert r == [Trade(trades[0])] + rest;
      assert r[i] == rest[i - 1];
      SortedTail(trades);
      TradeSeesQuotesUpTo(trades[1..], quotes, i - 1);
      SeenAfterTrade(trades[0], rest, i);
    } else {
      assert r[0] == Trade(trades[0]);
      assert r[..i] == [];
    }
  }

  /** For a time-ordered quote feed, the prefix stamped at or before `time` holds exactly those quotes. */
  lemma {:induction false} QuotesUpToSorted(quotes: seq<QuoteMessage>, time: int, k: int)
    requires QuotesSorted(quotes) && 0 <= k < |quotes|
    ensures k < QuotesUpTo(quotes, time) <==> quotes[k].time <= time
    decreases |quotes|
  {
    if k > 0 && quotes[0].time <= time {
      QuotesUpToSorted(quotes[1..], time, k - 1);
    }
  }

  /**
   The tie-break, stated over whole feeds: when both feeds are time-ordered,
   the quotes applied before a trade are the first ones of the quote feed, and
   a quote is among them exactly when its time is at or before the trade's.
   */
  lemma QuoteAppliedBeforeTradeIffNotLater(trades: seq<TradeMessage>, quotes: seq<QuoteMessage>, i: int, k: int)
    requires |trades| > 0 && TradesSorted(trades) && QuotesSorted(quotes)
    requires 0 <= i < |Merge(trades, quotes)| && Merge(trades, quotes)[i].Trade? && 0 <= k < |quotes|
    ensures var r := Merge(trades, quotes);
      var seen := QuotesOf(r[..i]);
      |seen| <= |quotes| && seen == quotes[..|seen|] && (k < |seen| <==> quotes[k].time <= r[i].trade.time)
  {
    var r := Merge(trades, quotes);
    TradeSeesQuotesUpTo(trades, quotes, i);
    QuotesUpToSorted(quotes, r[i].trade.time, k);
  }

  /** A trade at the end of a run adds no quote to it. */
  lemma QuotesOfEndingInTrade(r: seq<Message>)
    requires |r| > 0 && r[|r| - 1].Trade?
    ensures QuotesOf(r) == QuotesOf(r[..|r| - 1])
  {
    var last := |r| - 1;
    assert r == r[..last] + [r[last]];
    QuotesOfAppend(r[..last], [r[last]]);
    QuotesOfCons(r[last], []);
  }

  /** A quote stamped at or before `time` heads the prefix up to `time`, ahead of the rest's own prefix. */
  lemma QuotesUpToCons(quotes: seq<QuoteMessage>, time: int)
    requires |quotes| > 0 && quotes[0].time <= time
    ensures quotes[..QuotesUpTo(quotes, time)] == [quotes[0]] + quotes[1..][..QuotesUpTo(quotes[1..], time)]
  {
    var n := QuotesUpTo(quotes, time);
    assert n == 1 + QuotesUpTo(quotes[1..], time);
    assert forall k :: 0 <= k < n ==> quotes[..n][k] == ([quotes[0]] + quotes[1..][..n - 1])[k];
  }

  /**
   For a time-ordered trade feed the run applies the longest prefix of the
   quote feed stamped at or before the last trade, and nothing after it.
   */
  lemma {:induction false} TrailingQuotesNeverApplied(trades: seq<TradeMessage>, quotes: seq<QuoteMessage>)
    requires |trades| > 0 && TradesSorted(trades)
    ensures QuotesOf(Merge(trades, quotes)) == quotes[..QuotesUpTo(quotes, trades[|trades| - 1].time)]
    decreases |trades| + |quotes|, 1
  {
    if |quotes| > 0 && quotes[0].time <= trades[0].time {
      TrailingAfterQuote(trades, quotes);
    } else if |trades| == 1 {
      assert Merge(trades, quotes) == [Trade(trades[0])];
      QuotesOfCons(Trade(trades[0]), []);
    } else {
      TrailingAfterTrade(trades, quotes);
    }
  }

  /** The case of `TrailingQuotesNeverApplied` where the pending quote goes first. */
  lemma {:induction false} TrailingAfterQuote(trades: seq<TradeMessage>, quotes: seq<QuoteMessage>)
    requires |trades| > 0 && TradesSorted(trades)
    requires |quotes| > 0 && quotes[0].time <= trades[0].time
    ensures QuotesOf(Merge(trades, quotes)) == quotes[..QuotesUpTo(quotes, trades[|trades| - 1].time)]
    decreases |trades| + |quotes|, 0
  {
    // the quote is not later than the first trade, hence not later than the last
    assert trades[0].time <= trades[|trades| - 1].time;
    QuotesUpToCons(quotes, trades[|trades| - 1].time);
    TrailingQuotesNeverApplied(trades, quotes[1..]);
    var rest := Merge(trades, quotes[1..]);
    assert Merge(trades, quotes) == [Quote(quotes[0])] + rest;
    QuotesOfCons(Quote(quotes[0]), rest);
  }

  /** The case of `TrailingQuotesNeverApplied` where the pending trade goes first and is not the last. */
  lemma {:induction false} TrailingAfterTrade(trades: seq<TradeMessage>, quotes: seq<QuoteMessage>)
    requires |trades| > 1 && TradesSorted(trades)
    requires !(|quotes| > 0 && quotes[0].time <= trades[0].time)
    ensures QuotesOf(Merge(trades, quotes)) == quotes[..QuotesUpTo(quotes, trades[|trades| - 1].time)]
    decreases |trades| + |quotes|, 0
  {
    SortedTail(trades);
    TrailingQuotesNeverApplied(trades[1..], quotes);
    assert trades[1..][|trades| - 2] == trades[|trades| - 1];
    var rest := Merge(trades[1..], quotes);
    assert Merge(trades, quotes) == [Trade(trades[0])] + rest;
    QuotesOfCons(Trade(trades[0]), rest);
  }

  /**
   With both feeds time-ordered, a quote is applied during the run exactly
   when it is stamped at or before the last trade; later quotes never are.
   */
  lemma AppliedIffNotAfterLastTrade(trades: seq<TradeMessage>, quotes: seq<QuoteMessage>, k: int)
    requires |trades| > 0 && TradesSorted(trades) && QuotesSorted(quotes) && 0 <= k < |quotes|
    ensures var applied := QuotesOf(Merge(trades, quotes));
      |applied| <= |quotes| && applied == quotes[..|applied|] && (k < |applied| <==> quotes[k].time <= trades[|trades| - 1].time)
  {
    TrailingQuotesNeverApplied(trades, quotes);
    QuotesUpToSorted(quotes, trades[|trades| - 1].time, k);
  }
}
