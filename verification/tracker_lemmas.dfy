/**
 Properties of the registry: it keeps every entry's queue invariant, and
 symbols are independent of one another: what happens to one symbol is
 exactly what its own messages, taken alone, would do.
 */
module TrackerLemmas {
  import opened Messages
  import opened Stocks
  import opened Tracker
  import opened StockLemmas

  /** No message in the run carries a negative fill quantity. */
  predicate NonNegativeFills(ms: seq<Message>) {
    forall i :: 0 <= i < |ms| && ms[i].Trade? ==> ms[i].trade.quantity >= 0
  }

  /** The messages of one symbol, in their original order. */
  function Only(ms: seq<Message>, symbol: string): seq<Message>
    decreases |ms|
  {
    if |ms| == 0 then []
    else Only(ms[..|ms| - 1], symbol) + (if ms[|ms| - 1].Symbol() == symbol then [ms[|ms| - 1]] else [])
  }

  /** The paired trades of one symbol, in their original order. */
  function PairsOf(pairs: seq<PairedTrade>, symbol: string): seq<PairedTrade>
    decreases |pairs|
  {
    if |pairs| == 0 then []
    else (if pairs[0].symbol == symbol then [pairs[0]] else []) + PairsOf(pairs[1..], symbol)
  }

  lemma {:induction false} PairsOfAppend(a: seq<PairedTrade>, b: seq<PairedTrade>, symbol: string)
    ensures PairsOf(a + b, symbol) == PairsOf(a, symbol) + PairsOf(b, symbol)
    decreases |a|
  {
    if |a| == 0 {
      assert a + b == b;
    } else {
      var ab := a + b;
      var head := if a[0].symbol == symbol then [a[0]] else [];
      assert ab[0] == a[0];
      assert ab[1..] == a[1..] + b;
      PairsOfAppend(a[1..], b, symbol);
      assert PairsOf(ab, symbol) == head + (PairsOf(a[1..], symbol) + PairsOf(b, symbol));
      assert PairsOf(a, symbol) == head + PairsOf(a[1..], symbol);
    }
  }

  /** Filtering pairs that all carry one symbol keeps them all for that symbol and none for any other. */
  lemma {:induction false} PairsOfUniform(pairs: seq<PairedTrade>, owner: string, symbol: string)
    requires forall i :: 0 <= i < |pairs| ==> pairs[i].symbol == owner
    ensures PairsOf(pairs, symbol) == if owner == symbol then pairs else []
    decreases |pairs|
  {
    if |pairs| > 0 {
      PairsOfUniform(pairs[1..], owner, symbol);
    }
  }

  /* ---------------------------------------------------------------------- */
  /* The registry invariant                                                  */

  lemma ProcessMessageKeyed(reg: Registry, m: Message)
    requires KeyedBySymbol(reg)
    ensures KeyedBySymbol(ProcessMessage(reg, m).registry)
  {
  }

  /** A message with a non-negative quantity keeps every entry filed under its symbol with a valid queue. */
  lemma ProcessMessageWellFormed(reg: Registry, m: Message)
    requires WellFormed(reg) && (m.Trade? ==> m.trade.quantity >= 0)
    ensures WellFormed(ProcessMessage(reg, m).registry)
  {
    match m
    case Quote(q) =>
    case Trade(t) =>
      ProcessTradeInvariant(Lookup(reg, t.symbol), t.time, t.side, t.price, t.quantity);
  }

  lemma {:induction false} ReplayKeyed(reg: Registry, ms: seq<Message>)
    requires KeyedBySymbol(reg)
    ensures KeyedBySymbol(Replay(reg, ms).registry)
    decreases |ms|
  {
    if |ms| > 0 {
      ReplayKeyed(reg, ms[..|ms| - 1]);
      ProcessMessageKeyed(Replay(reg, ms[..|ms| - 1]).registry, ms[|ms| - 1]);
    }
  }

  /** Over any run without negative fills, every symbol's queue stays one-sided with no empty lot. */
  lemma {:induction false} ReplayWellFormed(reg: Registry, ms: seq<Message>)
    requires WellFormed(reg) && NonNegativeFills(ms)
    ensures WellFormed(Replay(reg, ms).registry)
    decreases |ms|
  {
    if |ms| > 0 {
      ReplayWellFormed(reg, ms[..|ms| - 1]);
      ProcessMessageWellFormed(Replay(reg, ms[..|ms| - 1]).registry, ms[|ms| - 1]);
    }
  }

  /* ---------------------------------------------------------------------- */
  /* Symbols are independent                                                 */

  /** A message's effect on its own symbol depends on that symbol's entry alone. */
  lemma ProcessMessageLocal(r1: Registry, r2: Registry, m: Message)
    requires Lookup(r1, m.Symbol()) == Lookup(r2, m.Symbol())
    ensures Lookup(ProcessMessage(r1, m).registry, m.Symbol()) == Lookup(ProcessMessage(r2, m).registry, m.Symbol())
    ensures ProcessMessage(r1, m).pairs == ProcessMessage(r2, m).pairs
  {
  }

  /** A message leaves the entry of every other symbol, and that symbol's pairs, alone. */
  lemma ProcessMessageElsewhere(reg: Registry, m: Message, symbol: string)
    requires KeyedBySymbol(reg) && m.Symbol() != symbol
    ensures Lookup(ProcessMessage(reg, m).registry, symbol) == Lookup(reg, symbol)
    ensures PairsOf(ProcessMessage(reg, m).pairs, symbol) == []
  {
    if m.Trade? {
      PairsOfUniform(ProcessMessage(reg, m).pairs, m.Symbol(), symbol);
    }
  }

  /** One more message of the symbol itself: both replays take the same step. */
  lemma IndependentOwnStep(reg: Registry, init: seq<Message>, m: Message, symbol: string)
    requires KeyedBySymbol(reg) && m.Symbol() == symbol
    requires Lookup(Replay(reg, init).registry, symbol) == Lookup(Replay(reg, Only(init, symbol)).registry, symbol)
    requires PairsOf(Replay(reg, init).pairs, symbol) == Replay(reg, Only(init, symbol)).pairs
    ensures Lookup(Replay(reg, init + [m]).registry, symbol) == Lookup(Replay(reg, Only(init + [m], symbol)).registry, symbol)
    ensures PairsOf(Replay(reg, init + [m]).pairs, symbol) == Replay(reg, Only(init + [m], symbol)).pairs
  {
    var ms := init + [m];
    assert ms[..|ms| - 1] == init;
    var before := Replay(reg, init);
    var step := ProcessMessage(before.registry, m);
    assert Replay(reg, ms) == TrackerOutcome(step.registry, before.pairs + step.pairs);
    var own := Only(ms, symbol);
    var ownInit := Only(init, symbol);
    assert own == ownInit + [m];
    assert own[..|own| - 1] == ownInit;
    var beforeOwn := Replay(reg, ownInit);
    var stepOwn := ProcessMessage(beforeOwn.registry, m);
    assert Replay(reg, own) == TrackerOutcome(stepOwn.registry, beforeOwn.pairs + stepOwn.pairs);
    ProcessMessageLocal(before.registry, beforeOwn.registry, m);
    ReplayKeyed(reg, init);
    PairsOfAppend(before.pairs, step.pairs, symbol);
    if m.Trade? {
      PairsOfUniform(step.pairs, symbol, symbol);
    }
  }

  /** One more message of another symbol: the symbol's own replay does not move. */
  lemma IndependentOtherStep(reg: Registry, init: seq<Message>, m: Message, symbol: string)
    requires KeyedBySymbol(reg) && m.Symbol() != symbol
    requires Lookup(Replay(reg, init).registry, symbol) == Lookup(Replay(reg, Only(init, symbol)).registry, symbol)
    requires PairsOf(Replay(reg, init).pairs, symbol) == Replay(reg, Only(init, symbol)).pairs
    ensures Lookup(Replay(reg, init + [m]).registry, symbol) == Lookup(Replay(reg, Only(init + [m], symbol)).registry, symbol)
    ensures PairsOf(Replay(reg, init + [m]).pairs, symbol) == Replay(reg, Only(init + [m], symbol)).pairs
  {
    var ms := init + [m];
    assert ms[..|ms| - 1] == init;
    var before := Replay(reg, init);
    var step := ProcessMessage(before.registry, m);
    assert Replay(reg, ms) == TrackerOutcome(step.registry, before.pairs + step.pairs);
    assert Only(ms, symbol) == Only(init, symbol);
    ReplayKeyed(reg, init);
    ProcessMessageElsewhere(before.registry, m, symbol);
    PairsOfAppend(before.pairs, step.pairs, symbol);
  }

  /**
   Replaying a mixed run and then looking at one symbol gives the same entry
   and the same paired trades as replaying that symbol's messages alone.
   */
  lemma {:induction false} SymbolsAreIndependent(reg: Registry, ms: seq<Message>, symbol: string)
    requires KeyedBySymbol(reg)
    ensures Lookup(Replay(reg, ms).registry, symbol) == Lookup(Replay(reg, Only(ms, symbol)).registry, symbol)
    ensures PairsOf(Replay(reg, ms).pairs, symbol) == Replay(reg, Only(ms, symbol)).pairs
    decreases |ms|
  {
    if |ms| > 0 {
      var init := ms[..|ms| - 1];
      var m := ms[|ms| - 1];
      assert ms == init + [m];
      SymbolsAreIndependent(reg, init, symbol);
      if m.Symbol() == symbol {
        IndependentOwnStep(reg, init, m, symbol);
      } else {
        IndependentOtherStep(reg, init, m, symbol);
      }
    }
  }
}
