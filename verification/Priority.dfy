/** Price-time priority over whole runs. */
module Priority {
  import opened Options
  import opened Orders
  import opened Matching
  import opened Books
  import opened Ledger

  /** x has priority over the order id resting at price: a better price, or the same price and an earlier entry. */
  predicate Ahead(side: Side, x: Order, price: Price, id: Id, h: History) {
    Better(side, x.price, price) || (x.price == price && Stamp(h, x.id) < Stamp(h, id))
  }

  /** Whenever a maker trades, every order that was ahead of it has already been filled completely. */
  ghost predicate InPriority(side: Side, resting: seq<Order>, ts: seq<Trade>, h: History) {
    forall i, j :: 0 <= i < |resting| && 0 <= j < |ts|
                   && Ahead(side, resting[i], ts[j].maker.price, ts[j].maker.id, h) ==>
      exists k :: 0 <= k < j && ts[k].maker.id == resting[i].id && ts[k].maker.leaves == 0
  }

  lemma {:induction false} AddIsInPriority(symbol: Symbol, b: Book, o: Order, h: History)
    requires Accounted(symbol, b, h)
    ensures InPriority(o.side.Opposite(), b.On(o.side.Opposite()), Add(b, o).trades, h)
  {
    if o.qty < 0 {
      return;
    }
    var side := o.side.Opposite();
    var t, opp, ts := o.(leaves := o.qty), b.On(side), Add(b, o).trades;
    assert ValidSide(symbol, side, opp) && InTime(opp, h);
    assert Positive(opp) by {
      assert forall i :: 0 <= i < |opp| ==> RestingOrder(symbol, side, opp[i]);
    }
    SweepIsGreedy(t, opp);
    hide Accounted, Valid, Stamp, Total;
    var n := Filled(t, opp);
    forall i, j | 0 <= i < |opp| && 0 <= j < |ts| && Ahead(side, opp[i], ts[j].maker.price, ts[j].maker.id, h)
      ensures exists k :: 0 <= k < j && ts[k].maker.id == opp[i].id && ts[k].maker.leaves == 0
    {
      assert Serves(ts[j], t, opp, j, n);
      assert i < j;
      assert Serves(ts[i], t, opp, i, n);
      PrefixTotals(opp, i, j);
      assert ts[i].maker.id == opp[i].id && ts[i].maker.leaves == 0;
    }
  }

  lemma {:induction false} PrefixTotals(s: seq<Order>, i: nat, j: nat)
    requires Positive(s) && i < j <= |s|
    ensures Total(s[..i]) + s[i].leaves <= Total(s[..j])
  {
    TotalPrefix(s, i);
    TotalAppend(s[..i + 1], s[i + 1..j]);
    assert s[..j] == s[..i + 1] + s[i + 1..j];
    TotalPositive(s[i + 1..j]);
  }

  /** The side an operation trades against, and its trades. */
  function OpTrades(b: Book, op: Op): (Side, seq<Trade>) {
    match op
    case AddOp(o) => (o.side.Opposite(), Add(b, o).trades)
    case CancelOp(_) => (Buy, [])
    case ReplaceOp(id, price, qty) =>
      if Lookup(b, id).Some? then (Lookup(b, id).value.side.Opposite(), Replace(b, id, price, qty).trades)
      else (Buy, [])
  }

  lemma {:induction false} StepIsInPriority(symbol: Symbol, b: Book, op: Op, h: History)
    requires Accounted(symbol, b, h)
    ensures var (side, ts) := OpTrades(b, op); InPriority(side, b.On(side), ts, h)
  {
    match op
    case AddOp(o) => AddIsInPriority(symbol, b, o, h);
    case CancelOp(_) =>
    case ReplaceOp(id, price, qty) =>
      LookupFinds(symbol, b, id);
      match Lookup(b, id)
      case None =>
      case Some(o) =>
        if !InPlace(o, price, qty) {
          AbsentRemove(b.On(o.side.Opposite()), id);
          RemovedIsInPriority(symbol, b, o, price, qty, h);
        }
  }

  lemma {:induction false} RemovedIsInPriority(symbol: Symbol, b: Book, o: Order, price: Price, qty: int, h: History)
    requires Accounted(symbol, b, h) && Lookup(b, o.id) == Some(o)
    requires Cancel(b, o.id).On(o.side.Opposite()) == b.On(o.side.Opposite())
    ensures InPriority(o.side.Opposite(), b.On(o.side.Opposite()),
              Add(Cancel(b, o.id), o.(price := price, qty := qty)).trades, h)
  {
    hide Stamp, Cum, Balance, Total, Valid, Lookup;
    var b', o', e := Cancel(b, o.id), o.(price := price, qty := qty), TakenOut(o.id, o.leaves);
    RemovalKeepsAccounts(symbol, b, o.id, h, e);
    AddIsInPriority(symbol, b', o', h + [e]);
    Extend(h, e);
  }

  lemma {:induction false} PrefixIsSound(symbol: Symbol, b: Book, ops: seq<Op>, k: nat)
    requires AllFresh(symbol, b, ops) && k <= |ops|
    ensures AllFresh(symbol, b, ops[..k])
    decreases k
  {
    if k > 0 {
      PrefixIsSound(symbol, Apply(b, ops[0]), ops[1..], k - 1);
      assert ops[..k][1..] == ops[1..][..k - 1];
    }
  }

  /** In any run from the empty book, every trade of every operation respects price-time
      priority, as long as no earlier operation has edited an order in place down to nothing. */
  lemma {:induction false} RunIsInPriority(symbol: Symbol, ops: seq<Op>, k: nat)
    requires AllFresh(symbol, EMPTY, ops) && k < |ops| && NeverBreaks(EMPTY, ops[..k])
    ensures var b, h := Run(EMPTY, ops[..k]), RunEntries(EMPTY, ops[..k]);
            var (side, ts) := OpTrades(b, ops[k]);
            InPriority(side, b.On(side), ts, h)
  {
    hide Accounted, Apply, OpTrades, InPriority;
    PrefixIsSound(symbol, EMPTY, ops, k);
    EmptyIsAccounted(symbol);
    RunKeepsAccountsIff(symbol, EMPTY, ops[..k], []);
    assert [] + RunEntries(EMPTY, ops[..k]) == RunEntries(EMPTY, ops[..k]);
    StepIsInPriority(symbol, Run(EMPTY, ops[..k]), ops[k], RunEntries(EMPTY, ops[..k]));
  }
}
