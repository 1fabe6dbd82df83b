/** What becomes of a new order, said in terms of what rests opposite and at which prices. */
module Dispatch {
  import opened Options
  import opened Orders
  import opened Matching
  import opened Books
  import opened Engine

  // ---- What rests within a limit ----

  /** Quantity resting at this price or a lower one. */
  function AtOrBelow(s: seq<Order>, limit: Price): int {
    if s == [] then 0 else (if s[0].price <= limit then s[0].leaves else 0) + AtOrBelow(s[1..], limit)
  }

  /** Quantity resting at this price or a higher one. */
  function AtOrAbove(s: seq<Order>, limit: Price): int {
    if s == [] then 0 else (if s[0].price >= limit then s[0].leaves else 0) + AtOrAbove(s[1..], limit)
  }

  /** What an order can get: a market order everything, any other what rests within its price. */
  function Reach(b: Book, o: Order): int {
    match (o.typ, o.side)
    case (Market, Buy) => Total(b.asks)
    case (Market, Sell) => Total(b.bids)
    case (_, Buy) => AtOrBelow(b.asks, o.price)
    case (_, Sell) => AtOrAbove(b.bids, o.price)
  }

  /** What the fill-or-kill check counts: an order that is not a limit order is taken to get everything. */
  function Promised(b: Book, o: Order): int {
    match (o.typ, o.side)
    case (Limit, Buy) => AtOrBelow(b.asks, o.price)
    case (Limit, Sell) => AtOrAbove(b.bids, o.price)
    case (_, Buy) => Total(b.asks)
    case (_, Sell) => Total(b.bids)
  }

  lemma {:induction false} CrossingIsWithin(o: Order, s: seq<Order>)
    ensures CrossingTotal(o, s) ==
            if o.typ.Market? then Total(s)
            else if o.side.Buy? then AtOrBelow(s, o.price) else AtOrAbove(s, o.price)
  {
    if s != [] {
      CrossingIsWithin(o, s[1..]);
    }
  }

  lemma {:induction false} DepthIsReach(symbol: Symbol, b: Book, o: Order)
    requires Valid(symbol, b)
    ensures var opp := if o.side.Buy? then b.asks else b.bids;
            && CrossingTotal(o, opp) == Depth(o, opp) == Reach(b, o)
            && Available(o, opp) == Promised(b, o) && 0 <= Reach(b, o) <= Total(opp)
  {
    var opp := b.On(o.side.Opposite());
    SideIsOrderly(symbol, b, o.side.Opposite());
    DepthIsCrossingTotal(o, opp);
    CrossingIsWithin(o, opp);
    DepthBounds(o, opp);
    if o.typ.Other? {
      AvailableIsTotal(o, opp);
    } else {
      AvailableIsDepth(o, opp);
    }
  }

  // ---- Matching ----

  /** An order gets the smaller of what it asks for and what rests opposite: of everything, if it
      is a market order, whatever its price field says; otherwise of what rests at its price
      or a better one. */
  lemma {:induction false} AddReaches(symbol: Symbol, b: Book, o: Order)
    requires Valid(symbol, b) && o.qty >= 0
    ensures var r := Add(b, o);
            && TakerQty(r.trades) == Min(o.qty, Reach(b, o)) && r.leaves == o.qty - TakerQty(r.trades)
            && (o.typ.Market? ==>
                  TakerQty(r.trades) == Min(o.qty, if o.side.Buy? then Total(b.asks) else Total(b.bids)))
            && (!o.typ.Market? ==> forall i :: 0 <= i < |r.trades| ==>
                  if o.side.Buy? then r.trades[i].taker.price <= o.price else r.trades[i].taker.price >= o.price)
  {
    hide Add, Valid, Depth, CrossingTotal, Total, AtOrBelow, AtOrAbove;
    AddFills(symbol, b, o);
    DepthIsReach(symbol, b, o);
    SweepPrices(symbol, b, o);
  }

  // ---- Time in force ----

  /** A fill-or-kill order is killed exactly if the check promises it less than it asks for,
      a market order exactly if less rests opposite. */
  lemma {:induction false} KilledIff(symbol: Symbol, b: Book, o: Order)
    requires Valid(symbol, b) && o.tif.Fok?
    ensures Process(b, NewOrder(o)).calls == [OnTifCancel(o.(leaves := o.qty))] && Process(b, NewOrder(o)).book == b
            <==> Promised(b, o) < o.qty
    ensures o.typ.Market? ==>
              (Promised(b, o) < o.qty <==> (if o.side.Buy? then Total(b.asks) else Total(b.bids)) < o.qty)
  {
    hide Add, Valid, Depth, CrossingTotal, Total, Available, AtOrBelow, AtOrAbove;
    DepthIsReach(symbol, b, o);
    var r := Add(b, o);
    assert r.trades != [] ==> (Fills(r.trades) + Ending(o, r.leaves))[0].OnFill?;
  }

  /** The whole fate of a new order. A default order is filled as far as it reaches; what is
      left rests if it is a limit order, and is dropped without a word otherwise. An
      immediate-or-cancel order is filled as far as it reaches, and what is left is
      cancelled. A fill-or-kill order is cancelled whole if the check promises too little,
      and otherwise filled as far as it reaches. Only default limit orders ever rest. */
  lemma {:induction false} NewOrderFate(symbol: Symbol, b: Book, o: Order)
    requires Valid(symbol, b) && o.symbol == symbol && o.qty >= 1 && !Present(b, o.id)
    ensures var s := Process(b, NewOrder(o));
            var killed := o.tif.Fok? && Promised(b, o) < o.qty;
            var filled := if killed then 0 else Min(o.qty, Reach(b, o));
            var trades := if killed then [] else Add(b, o).trades;
            var left := o.(leaves := o.qty - filled);
            && TakerQty(trades) == filled
            && s.calls == Fills(trades)
                          + (if o.tif.Gtc? && o.typ.Limit? && filled < o.qty then [OnRested(o, o.qty - filled)]
                             else if (o.tif.Ioc? && filled < o.qty) || killed then [OnTifCancel(left)]
                             else [])
            && (killed ==> s.book == b)
            && (Present(s.book, o.id) <==> o.tif.Gtc? && o.typ.Limit? && filled < o.qty)
            && (Present(s.book, o.id) ==> Lookup(s.book, o.id) == Some(left))
  {
    hide Add, Valid, Depth, CrossingTotal, Total, Available, AtOrBelow, AtOrAbove, Present, Lookup, Reach, Promised;
    DepthIsReach(symbol, b, o);
    AddFills(symbol, b, o);
    AddPresence(symbol, b, o);
    LimitPromise(b, o);
    assert Fills([]) == [] && TakerQty([]) == 0;
  }

  lemma {:induction false} LimitPromise(b: Book, o: Order)
    ensures o.typ.Limit? ==> Promised(b, o) == Reach(b, o)
  {
  }
}
