/** The engine's dispatch of one dequeued work item, and the callbacks it makes. */
module Engine {
  import opened Options
  import opened Orders
  import opened Matching
  import opened Books

  datatype Callback =
    | OnFill(trade: Trade)
    | OnTifCancel(order: Order)
    | OnRested(order: Order, leaves: int)
    | OnCancel(cancel: CancelReq, found: bool)
    | OnReplace(replace: ReplaceReq, found: bool, leaves: int)

  datatype Step = Step(book: Book, calls: seq<Callback>)

  function Fills(ts: seq<Trade>): seq<Callback> {
    seq(|ts|, i requires 0 <= i < |ts| => OnFill(ts[i]))
  }

  lemma {:induction false} FillsCons(t: Trade, ts: seq<Trade>)
    ensures var cs := Fills([t] + ts); cs != [] && cs[0] == OnFill(t) && cs[1..] == Fills(ts)
    ensures Fills([]) == []
  {
  }

  function SymbolOf(item: WorkItem): Symbol {
    match item
    case NewOrder(o) => o.symbol
    case CancelItem(c) => c.symbol
    case ReplaceItem(r) => r.symbol
  }

  /** What follows the fills of a new order. */
  function Ending(o: Order, leaves: int): seq<Callback> {
    if o.tif.Fok? then []
    else if o.tif.Ioc? && leaves > 0 then [OnTifCancel(o.(leaves := leaves))]
    else if leaves > 0 && o.typ.Limit? then [OnRested(o, leaves)]
    else []
  }

  /** A fill-or-kill order that the pre-check turns away. */
  predicate Killed(b: Book, o: Order) {
    o.tif.Fok? && Available(o, b.On(o.side.Opposite())) < o.qty
  }

  function Process(b: Book, item: WorkItem): Step {
    match item
    case NewOrder(o) =>
      if Killed(b, o) then Step(b, [OnTifCancel(o.(leaves := o.qty))])
      else var r := Add(b, o); Step(r.book, Fills(r.trades) + Ending(o, r.leaves))
    case CancelItem(c) => Step(Cancel(b, c.id), [OnCancel(c, Present(b, c.id))])
    case ReplaceItem(q) =>
      var r := Replace(b, q.id, q.price, q.qty);
      Step(r.book, Fills(r.trades) + [OnReplace(q, r.leaves >= 0, r.leaves)])
  }

  // ---- The quantity an order gets ----

  function TakerQty(ts: seq<Trade>): int {
    if ts == [] then 0 else ts[0].taker.qty + TakerQty(ts[1..])
  }

  lemma {:induction false} SweepQty(taker: Order, opp: seq<Order>)
    ensures var r := Sweep(taker, opp); TakerQty(r.trades) == taker.leaves - r.taker.leaves
    decreases |opp|
  {
    if taker.leaves <= 0 || opp == [] || !Crosses(taker, opp[0].price) {
    } else {
      var qty := Min(taker.leaves, opp[0].leaves);
      if qty == opp[0].leaves {
        SweepQty(taker.(leaves := taker.leaves - qty), opp[1..]);
        assert Sweep(taker, opp).trades[1..] == Sweep(taker.(leaves := taker.leaves - qty), opp[1..]).trades;
      } else {
        assert Sweep(taker, opp).trades[1..] == [];
      }
    }
  }

  /** What add fills: the smaller of the order and what rests at prices it may trade at. */
  lemma {:induction false} AddFills(symbol: Symbol, b: Book, o: Order)
    requires Valid(symbol, b) && o.qty >= 0
    ensures var opp := b.On(o.side.Opposite());
            var filled := TakerQty(Add(b, o).trades);
            && filled == o.qty - Add(b, o).leaves
            && filled == Min(o.qty, CrossingTotal(o, opp))
            && CrossingTotal(o, opp) == Depth(o, opp)
  {
    var t, opp := o.(leaves := o.qty), b.On(o.side.Opposite());
    SideIsOrderly(symbol, b, o.side.Opposite());
    SweepQty(t, opp);
    SweepIsGreedy(t, opp);
    DepthSameLimit(o, t, opp);
    DepthIsCrossingTotal(o, opp);
  }

  // ---- Fill or kill ----

  /** Nothing on the opposite side lies beyond the order's reach. */
  ghost predicate AllInReach(b: Book, o: Order) {
    forall i :: 0 <= i < |b.On(o.side.Opposite())| ==> Crosses(o, b.On(o.side.Opposite())[i].price)
  }

  /** The pre-check predicts the fill exactly, except for an order that is neither market
      nor limit, is larger than what it can reach, and has something beyond its reach. */
  lemma {:induction false} PreCheckExactIff(symbol: Symbol, b: Book, o: Order)
    requires Valid(symbol, b) && o.qty >= 0
    ensures var opp := b.On(o.side.Opposite());
            TakerQty(Add(b, o).trades) == Min(o.qty, Available(o, opp))
            <==> !o.typ.Other? || o.qty <= CrossingTotal(o, opp) || AllInReach(b, o)
  {
    var opp := b.On(o.side.Opposite());
    AddFills(symbol, b, o);
    if o.typ.Other? {
      AvailableIsTotal(o, opp);
      SideIsOrderly(symbol, b, o.side.Opposite());
      DepthIsTotalIff(o, opp);
      DepthBounds(o, opp);
    } else {
      AvailableIsDepth(o, opp);
    }
  }

  lemma {:induction false} DepthIsTotalIff(o: Order, opp: seq<Order>)
    requires Positive(opp)
    ensures Depth(o, opp) == Total(opp) <==> forall i :: 0 <= i < |opp| ==> Crosses(o, opp[i].price)
  {
    TotalPositive(opp);
    if opp == [] {
    } else if Crosses(o, opp[0].price) {
      DepthIsTotalIff(o, opp[1..]);
      forall i | 0 < i < |opp|
        ensures opp[i] == opp[1..][i - 1]
      {
      }
    }
  }

  /** A stop order (any type code but '1' and '2') defeats the pre-check: it promises a
      complete fill, and the order then fills nothing and gets no cancel report. */
  lemma {:induction false} StopOrderDefeatsFok()
    ensures exists b: Book, o: Order ::
              && Valid("A", b) && o.tif.Fok? && o.qty > 0 && o.symbol == "A"
              && !Killed(b, o) && Process(b, NewOrder(o)) == Step(b, [])
  {
    var ask := Order(1, "S1", "A", Sell, Limit, 10, 5, 5, Gtc);
    var b := Book([], [ask]);
    var o := Order(2, "S2", "A", Buy, Other, 0, 5, 5, Fok);
    assert Available(o, b.asks) == 5 by {
      assert b.asks[1..] == [];
    }
    assert Sweep(o, b.asks) == Swept(o, b.asks, []);
    assert Valid("A", b) && !Killed(b, o);
    assert Fills([]) == [];
    assert Process(b, NewOrder(o)) == Step(b, []);
  }

  /** A market or limit fill-or-kill order is filled completely or leaves no trace in the
      book, and never rests. */
  lemma {:induction false} FokAllOrNothing(symbol: Symbol, b: Book, o: Order)
    requires Valid(symbol, b) && o.symbol == symbol && o.qty >= 1 && !Present(b, o.id)
    requires o.tif.Fok? && !o.typ.Other?
    ensures var s := Process(b, NewOrder(o));
            && !Present(s.book, o.id)
            && if CrossingTotal(o, b.On(o.side.Opposite())) < o.qty
               then s == Step(b, [OnTifCancel(o.(leaves := o.qty))])
               else s.calls == Fills(Add(b, o).trades) && TakerQty(Add(b, o).trades) == o.qty
  {
    AddFills(symbol, b, o);
    AvailableIsDepth(o, b.On(o.side.Opposite()));
    AddPresence(symbol, b, o);
  }

  // ---- What becomes of an order ----

  lemma {:induction false} AddPresence(symbol: Symbol, b: Book, o: Order)
    requires Valid(symbol, b) && o.symbol == symbol && o.qty >= 0 && !Present(b, o.id)
    ensures var r := Add(b, o);
            && Valid(symbol, r.book)
            && (forall x :: Present(r.book, x) ==> x == o.id || Present(b, x))
            && (Present(r.book, o.id) <==> r.leaves > 0 && o.typ.Limit? && !o.tif.Ioc?)
            && (Present(r.book, o.id) ==> Lookup(r.book, o.id) == Some(o.(leaves := r.leaves)))
  {
    AddKeepsValidIff(symbol, b, o);
    var t, other := o.(leaves := o.qty), o.side.Opposite();
    SideIsOrderly(symbol, b, other);
    SweepRest(t, b.On(other));
    var r := Sweep(t, b.On(other));
    SweptBookValid(symbol, b, other, r.rest);
    if Rests(r.taker) {
      InsertPresence(b.With(other, r.rest), r.taker);
      LookupFinds(symbol, Add(b, o).book, o.id);
    }
  }

  lemma {:induction false} InsertPresence(b: Book, o: Order)
    requires !Present(b, o.id)
    ensures forall x :: Present(Restore(b, o), x) ==> x == o.id || Present(b, x)
    ensures Present(Restore(b, o), o.id) && Lookup(Restore(b, o), o.id) == Some(o)
  {
    var s, t, k := b.On(o.side), Insert(b.On(o.side), o), Place(b.On(o.side), o);
    forall i | 0 <= i < |t|
      ensures t[i] == if i < k then s[i] else if i == k then o else s[i - 1]
    {
    }
    assert t[k].id == o.id;
    forall x | Holds(t, x)
      ensures x == o.id || Holds(s, x)
    {
      var i :| 0 <= i < |t| && t[i].id == x;
      if i != k {
        assert s[if i < k then i else i - 1].id == x;
      }
    }
    assert Find(t, o.id) == k;
  }

  /** Quantity left over that nobody is told about. */
  predicate Drops(b: Book, o: Order) {
    var depth := Depth(o, b.On(o.side.Opposite()));
    && depth < o.qty
    && match o.tif {
         case Gtc => !o.typ.Limit?
         case Ioc => false
         case Fok => !Killed(b, o)
       }
  }

  /** Every new order meets exactly one of four ends: filled completely; resting, with a
      callback that gives the leaves now in the book; cancelled for its time in force,
      with leaves that are its quantity less its fills; or silently dropped. The rested
      callback is made exactly when the book holds the order. */
  lemma {:induction false} OrderMeetsOneEnd(symbol: Symbol, b: Book, o: Order)
    requires Valid(symbol, b) && o.symbol == symbol && o.qty >= 1 && !Present(b, o.id)
    ensures var s := Process(b, NewOrder(o));
            var trades := if Killed(b, o) then [] else Add(b, o).trades;
            var filled := TakerQty(trades);
            var end := s.calls[|trades|..];
            && 0 <= filled <= o.qty
            && |trades| <= |s.calls| && s.calls[..|trades|] == Fills(trades)
            && (Present(s.book, o.id) <==> end == [OnRested(o, o.qty - filled)])
            && (Present(s.book, o.id) ==>
                  filled < o.qty && Lookup(s.book, o.id) == Some(o.(leaves := o.qty - filled)))
            && (filled == o.qty ==> end == [])
            && (filled < o.qty ==>
                  || end == [OnRested(o, o.qty - filled)]
                  || end == [OnTifCancel(o.(leaves := o.qty - filled))]
                  || end == [])
            && (filled < o.qty && end == [] <==> Drops(b, o))
            && (!o.typ.Other? && Drops(b, o) ==> o.typ.Market? && o.tif.Gtc?)
  {
    hide Add, Valid, Depth, Present, Lookup, Available, CrossingTotal, Positive, Sorted, Distinct, RestingOrder;
    AddFills(symbol, b, o);
    SideIsOrderly(symbol, b, o.side.Opposite());
    DepthBounds(o, b.On(o.side.Opposite()));
    AddPresence(symbol, b, o);
    if !o.typ.Other? {
      AvailableIsDepth(o, b.On(o.side.Opposite()));
    }
    var s := Process(b, NewOrder(o));
    var trades := if Killed(b, o) then [] else Add(b, o).trades;
    assert s.calls[..|trades|] == Fills(trades);
    assert s.calls[|trades|..]
        == if Killed(b, o) then [OnTifCancel(o.(leaves := o.qty))] else Ending(o, Add(b, o).leaves);
  }

  // ---- Prices ----

  /** Trades happen at the maker's price, within the aggressor's limit, at prices that
      never improve from one trade of the sweep to the next. */
  lemma {:induction false} SweepPrices(symbol: Symbol, b: Book, o: Order)
    requires Valid(symbol, b) && o.qty >= 0
    ensures var ts, opp := Add(b, o).trades, b.On(o.side.Opposite());
            && |ts| <= |opp|
            && (forall i :: 0 <= i < |ts| ==>
                  && ts[i].maker.id == opp[i].id
                  && ts[i].maker.price == ts[i].taker.price == opp[i].price
                  && ts[i].maker.qty == ts[i].taker.qty > 0
                  && Crosses(o, ts[i].taker.price))
            && (forall i, j :: 0 <= i < j < |ts| ==>
                  !Better(o.side.Opposite(), ts[j].taker.price, ts[i].taker.price))
  {
    var t, opp := o.(leaves := o.qty), b.On(o.side.Opposite());
    SideIsOrderly(symbol, b, o.side.Opposite());
    SweepIsGreedy(t, opp);
    SweepCrosses(t, opp);
  }

  lemma {:induction false} TakerQtyCounts(ts: seq<Trade>)
    requires forall i :: 0 <= i < |ts| ==> ts[i].taker.qty > 0
    ensures TakerQty(ts) >= 0 && (TakerQty(ts) == 0 <==> ts == [])
  {
    if ts != [] {
      TakerQtyCounts(ts[1..]);
    }
  }

  /** A replace leaves the new quantity less what it trades, so all of it exactly if it makes no trade. */
  lemma {:induction false} ReplaceLeavesIff(symbol: Symbol, b: Book, id: Id, price: Price, qty: int)
    requires Valid(symbol, b) && Present(b, id)
    ensures var r := Replace(b, id, price, qty);
            && r.leaves == qty - TakerQty(r.trades)
            && (r.leaves == qty <==> r.trades == [])
  {
    LookupFinds(symbol, b, id);
    CancelKeepsValid(symbol, b, id);
    hide Valid, Cancel;
    var o := Lookup(b, id).value;
    if !InPlace(o, price, qty) && qty >= 0 {
      hide Add;
      AddFills(symbol, Cancel(b, id), o.(price := price, qty := qty));
      SweepPrices(symbol, Cancel(b, id), o.(price := price, qty := qty));
      TakerQtyCounts(Replace(b, id, price, qty).trades);
    }
  }

  lemma {:induction false} SweepCrosses(taker: Order, opp: seq<Order>)
    ensures forall i :: 0 <= i < |Sweep(taker, opp).trades| ==> Crosses(taker, Sweep(taker, opp).trades[i].taker.price)
    decreases |opp|
  {
    if taker.leaves <= 0 || opp == [] || !Crosses(taker, opp[0].price) {
    } else {
      var qty := Min(taker.leaves, opp[0].leaves);
      if qty == opp[0].leaves {
        SweepCrosses(taker.(leaves := taker.leaves - qty), opp[1..]);
      }
    }
  }
}
