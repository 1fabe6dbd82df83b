/** What is sent for every trade: the two parties' reports, the packets and the events, said in
    terms of what the books hold before and after. */
module Executions {
  import opened Options
  import opened Orders
  import opened Matching
  import opened Books
  import opened MessageFactory
  import opened Ledger
  import opened Engine
  import opened Gateway

  /** What rests of this order. */
  function Left(b: Book, id: Id): int {
    match Lookup(b, id)
    case None => 0
    case Some(o) => o.leaves
  }

  /** What the first n orders of a side lost on the way from it to the book b. */
  function Lost(s: seq<Order>, b: Book, n: nat): int
    requires n <= |s|
  {
    if n == 0 then 0 else Lost(s, b, n - 1) + s[n - 1].leaves - Left(b, s[n - 1].id)
  }

  function Opposing(b: Book, o: Order): seq<Order> {
    if o.side.Buy? then b.asks else b.bids
  }

  // ---- The trades of an order that enters the book ----

  /** An order that may be added to the book of this symbol. */
  ghost predicate Enters(symbol: Symbol, b: Book, o: Order) {
    Valid(symbol, b) && o.symbol == symbol && o.qty >= 1 && !Present(b, o.id)
  }

  /** An add seen from the opposite side. */
  lemma {:induction false} AddSweeps(b: Book, o: Order)
    ensures var r := Sweep(o.(leaves := o.qty), Opposing(b, o));
            && Add(b, o).book.On(o.side.Opposite()) == r.rest
            && Add(b, o).trades == r.trades && Add(b, o).leaves == r.taker.leaves
  {
    hide Sweep, Insert;
    var side := o.side.Opposite();
    assert Opposing(b, o) == b.On(side);
    var r := Sweep(o.(leaves := o.qty), b.On(side));
    var b1 := b.With(side, r.rest);
    SweepKeepsTaker(o.(leaves := o.qty), b.On(side));
    assert b1.On(side) == r.rest && Restore(b1, r.taker).On(side) == b1.On(side);
  }

  lemma {:induction false} SweepConsumes(symbol: Symbol, b: Book, o: Order)
    requires Enters(symbol, b, o)
    ensures var opp, ts, n := Opposing(b, o), Add(b, o).trades, o.qty - Add(b, o).leaves;
            && |ts| <= |opp| && Distinct(opp) && Positive(opp)
            && Consumed(Add(b, o).book.On(o.side.Opposite()), opp, |ts|, n)
            && (forall i :: 0 <= i < |ts| ==> Serves(ts[i], o.(leaves := o.qty), opp, i, n))
  {
    hide Valid, Present, Add, Sweep, Consumed, Serves;
    SideIsOrderly(symbol, b, o.side.Opposite());
    var t, opp := o.(leaves := o.qty), Opposing(b, o);
    SweepIsGreedy(t, opp);
    AddSweeps(b, o);
    var n := o.qty - Add(b, o).leaves;
    assert n == Matching.Filled(t, opp);
    forall i | 0 <= i < |Add(b, o).trades|
      ensures Serves(Add(b, o).trades[i], t, opp, i, n)
    {
      assert Serves(Sweep(t, opp).trades[i], t, opp, i, Matching.Filled(t, opp));
    }
  }

  lemma {:induction false} OtherOrder(symbol: Symbol, b: Book, o: Order, i: nat)
    requires Enters(symbol, b, o) && i < |Opposing(b, o)|
    ensures Opposing(b, o)[i].id != o.id && Holds(b.On(o.side.Opposite()), Opposing(b, o)[i].id)
    ensures Opposing(b, o)[i].symbol == symbol && Opposing(b, o)[i].side == o.side.Opposite()
    ensures Opposing(b, o)[i].leaves > 0
  {
    SideIsOrderly(symbol, b, o.side.Opposite());
  }

  /** What is left of the i-th order opposite, once the sweep is over. */
  lemma {:induction false} LeftAfter(symbol: Symbol, b: Book, o: Order, i: nat)
    requires Enters(symbol, b, o) && i < |Add(b, o).trades| <= |Opposing(b, o)|
    ensures var opp, n := Opposing(b, o), o.qty - Add(b, o).leaves;
            Left(Add(b, o).book, opp[i].id) == if n >= Total(opp[..i + 1]) then 0 else Total(opp[..i + 1]) - n
  {
    hide Valid, Present, Lookup, Add, Consumed, Serves, Total, Opposing, Distinct, Positive;
    var opp, b', n := Opposing(b, o), Add(b, o).book, o.qty - Add(b, o).leaves;
    var rest := b'.On(o.side.Opposite());
    SweepConsumes(symbol, b, o);
    OtherOrder(symbol, b, o, i);
    AddPresence(symbol, b, o);
    LookupFinds(symbol, b', opp[i].id);
    Untouched(opp, rest, |Add(b, o).trades|, n, i);
    if n >= Total(opp[..i + 1]) {
      Absent(symbol, b, o, opp[i].id);
    } else {
      FoundAt(symbol, b', o.side.Opposite(), 0);
    }
  }

  /** Of the orders a sweep touched, only the last can be there afterwards, in front. */
  lemma {:induction false} Untouched(opp: seq<Order>, rest: seq<Order>, m: nat, n: int, i: nat)
    requires i < m <= |opp| && Consumed(rest, opp, m, n) && Distinct(opp) && Positive(opp)
    ensures n >= Total(opp[..i + 1]) ==> !Holds(rest, opp[i].id)
    ensures n < Total(opp[..i + 1]) ==>
              i == m - 1 && rest != [] && rest[0] == opp[i].(leaves := Total(opp[..i + 1]) - n)
  {
    if i < m - 1 {
      TotalGrows(opp, i + 1, m - 1);
    }
  }

  lemma {:induction false} TotalGrows(s: seq<Order>, i: nat, j: nat)
    requires i <= j <= |s| && Positive(s)
    ensures Total(s[..i]) <= Total(s[..j])
  {
    assert s[..j] == s[..i] + s[i..j];
    TotalAppend(s[..i], s[i..j]);
    TotalPositive(s[i..j]);
  }

  /** An order opposite that is gone from its side is gone from the book. */
  lemma {:induction false} Absent(symbol: Symbol, b: Book, o: Order, id: Id)
    requires Enters(symbol, b, o) && id != o.id && Holds(b.On(o.side.Opposite()), id)
    requires !Holds(Add(b, o).book.On(o.side.Opposite()), id)
    ensures !Present(Add(b, o).book, id)
  {
    var side := o.side.Opposite();
    var r := Sweep(o.(leaves := o.qty), b.On(side));
    var b1 := b.With(side, r.rest);
    AddPresence(symbol, b, o);
    OneSide(symbol, b, side, id);
    SideIsOrderly(symbol, b, side);
    SweepRest(o.(leaves := o.qty), b.On(side));
    RestIds(r.rest, b.On(side), o.id);
    if Rests(r.taker) {
      InsertPresence(b1, r.taker);
    }
  }

  lemma {:induction false} RestIds(rest: seq<Order>, opp: seq<Order>, id: Id)
    requires Remains(rest, opp)
    ensures Holds(rest, id) ==> Holds(opp, id)
  {
    if Holds(rest, id) {
      var i :| 0 <= i < |rest| && rest[i].id == id;
      assert Reduced(rest[i], opp[i + |opp| - |rest|]);
    }
  }

  lemma {:induction false} OneSide(symbol: Symbol, b: Book, side: Side, id: Id)
    requires Valid(symbol, b) && Holds(b.On(side), id)
    ensures !Holds(b.On(side.Opposite()), id)
  {
  }

  /** What the orders in front of the i-th lost is all they had. */
  lemma {:induction false} LostInFront(symbol: Symbol, b: Book, o: Order, i: nat)
    requires Enters(symbol, b, o) && i < |Add(b, o).trades| <= |Opposing(b, o)|
    ensures Lost(Opposing(b, o), Add(b, o).book, i) == Total(Opposing(b, o)[..i])
  {
    hide Valid, Present, Lookup, Add, Consumed, Serves, Opposing, Distinct, Positive, Left, Enters;
    var opp := Opposing(b, o);
    if i == 0 {
      assert opp[..0] == [];
    } else {
      LostInFront(symbol, b, o, i - 1);
      LeftAfter(symbol, b, o, i - 1);
      TotalPrefix(opp, i - 1);
      FullyTaken(symbol, b, o, i);
    }
  }

  lemma {:induction false} FullyTaken(symbol: Symbol, b: Book, o: Order, i: nat)
    requires Enters(symbol, b, o) && i < |Add(b, o).trades| <= |Opposing(b, o)|
    ensures Total(Opposing(b, o)[..i]) < o.qty - Add(b, o).leaves
  {
    hide Valid, Present, Add, Consumed, Opposing, Total;
    SweepConsumes(symbol, b, o);
    assert Serves(Add(b, o).trades[i], o.(leaves := o.qty), Opposing(b, o), i, o.qty - Add(b, o).leaves);
  }

  /** Trade number i is with the i-th order opposite in price-then-arrival order, at that
      order's price. Its quantity is what that order lost; the maker's half gives what rests
      of it, and the taker's half what the order that entered still wants. */
  lemma {:induction false} TradeInBooks(symbol: Symbol, b: Book, o: Order, i: nat)
    requires Enters(symbol, b, o) && i < |Add(b, o).trades|
    ensures i < |Opposing(b, o)|
    ensures var t, x, b' := Add(b, o).trades[i], Opposing(b, o)[i], Add(b, o).book;
            var left, wants := Left(b', x.id), o.qty - Lost(Opposing(b, o), b', i + 1);
            && 0 <= left < x.leaves && 0 <= wants && (wants == 0 ==> i == |Add(b, o).trades| - 1)
            && t.maker == Fill(x.id, x.symbol, x.side, x.price, x.leaves - left, left, x.qty)
            && t.taker == Fill(o.id, o.symbol, o.side, x.price, x.leaves - left, wants, o.qty)
  {
    hide Valid, Present, Lookup, Add, Consumed, Opposing, Distinct, Positive, Left, Total;
    SweepConsumes(symbol, b, o);
    var opp, ts, n := Opposing(b, o), Add(b, o).trades, o.qty - Add(b, o).leaves;
    LeftAfter(symbol, b, o, i);
    LostInFront(symbol, b, o, i);
    FullyTaken(symbol, b, o, i);
    OtherOrder(symbol, b, o, i);
    TotalPrefix(opp, i);
    NotMore(symbol, b, o);
    assert Serves(ts[i], o.(leaves := o.qty), opp, i, n);
    if i < |ts| - 1 {
      FullyTaken(symbol, b, o, i + 1);
    }
  }

  lemma {:induction false} NotMore(symbol: Symbol, b: Book, o: Order)
    requires Enters(symbol, b, o)
    ensures 0 <= Add(b, o).leaves <= o.qty
  {
    hide Valid, Present, Add;
    AddFills(symbol, b, o);
    SideIsOrderly(symbol, b, o.side.Opposite());
    DepthBounds(o, b.On(o.side.Opposite()));
  }

  // ---- What is sent for a trade ----

  /** What a party of a trade is told, if it has a session: filled if nothing is left, and as
      traded what is missing from the order quantity. */
  function ReportDue(g: Gw, id: Id, orderQty: int, left: int): seq<Report> {
    if id in g.sessions
    then [Execution(if left == 0 then MessageFactory.Filled else PartFill, id, orderQty, left, orderQty - left)]
    else []
  }

  /** Fills end the session of nobody who is not filled. */
  lemma {:induction false} FillsKeepSession(g: Gw, ts: seq<Trade>, id: Id)
    requires forall i :: 0 <= i < |ts| ==> ts[i].maker.id != id && (ts[i].taker.id == id ==> ts[i].taker.leaves != 0)
    ensures id in NotifyAll(g, Fills(ts)).gw.sessions <==> id in g.sessions
    decreases |ts|
  {
    if ts == [] {
      assert Fills(ts) == [];
    } else {
      FillsCons(ts[0], ts[1..]);
      assert [ts[0]] + ts[1..] == ts;
      OtherSessions(g, ts[0], id);
      hide Notify;
      FillsKeepSession(Notify(g, OnFill(ts[0])).gw, ts[1..], id);
    }
  }

  lemma {:induction false} OtherSessions(g: Gw, t: Trade, id: Id)
    requires t.maker.id != id && (t.taker.id == id ==> t.taker.leaves != 0)
    ensures id in Notify(g, OnFill(t)).gw.sessions <==> id in g.sessions
    ensures id in SendFill(g, t.maker).sessions <==> id in g.sessions
  {
  }

  /** When the i-th trade is announced, both its parties have the sessions they had before the step. */
  lemma {:induction false} StillInSession(symbol: Symbol, b: Book, o: Order, g: Gw, i: nat)
    requires Enters(symbol, b, o) && i < |Add(b, o).trades| && i < |Opposing(b, o)|
    ensures var x, gi := Opposing(b, o)[i], NotifyAll(g, Fills(Add(b, o).trades[..i])).gw;
            && x.id != o.id
            && (x.id in gi.sessions <==> x.id in g.sessions) && (o.id in gi.sessions <==> o.id in g.sessions)
  {
    hide Valid, Present, Lookup, Add, Left, NotifyAll, Lost, Enters;
    var ts, opp, x := Add(b, o).trades[..i], Opposing(b, o), Opposing(b, o)[i];
    OtherOrder(symbol, b, o, i);
    forall j | 0 <= j < i
      ensures ts[j].maker.id != x.id && ts[j].maker.id != o.id && ts[j].taker.id == o.id && ts[j].taker.leaves != 0
    {
      TradeInBooks(symbol, b, o, j);
      OtherOrder(symbol, b, o, j);
      OthersDiffer(symbol, b, o, j, i);
    }
    FillsKeepSession(g, ts, x.id);
    FillsKeepSession(g, ts, o.id);
  }

  lemma {:induction false} OthersDiffer(symbol: Symbol, b: Book, o: Order, i: nat, j: nat)
    requires Enters(symbol, b, o) && i < j < |Opposing(b, o)|
    ensures Opposing(b, o)[i].id != Opposing(b, o)[j].id
  {
    SideIsOrderly(symbol, b, o.side.Opposite());
  }

  /** For the i-th trade each party with a session gets one report, the feed one update of the
      resting order and one trade print, and the database one event for each party. All of
      them say what rests, what is still wanted, and what changed hands at which price. */
  lemma {:induction false} TradeIsSent(symbol: Symbol, b: Book, o: Order, g: Gw, i: nat)
    requires Enters(symbol, b, o) && i < |Add(b, o).trades| && i < |Opposing(b, o)|
    ensures var x, b', c := Opposing(b, o)[i], Add(b, o).book, OnFill(Add(b, o).trades[i]);
            var left, wants := Left(b', x.id), o.qty - Lost(Opposing(b, o), b', i + 1);
            var gi := NotifyAll(g, Fills(Add(b, o).trades[..i])).gw;
            var side := if x.side.Buy? then BidSide else AskSide;
            && Reports(gi, c) == ReportDue(g, x.id, x.qty, left) + ReportDue(g, o.id, o.qty, wants)
            && Notify(gi, c).packets == [Packet(FillRestingPkt, side, x.symbol, x.price, left, x.id),
                                         Packet(TradePkt, TradeSide, x.symbol, x.price, x.leaves - left, x.id)]
            && Notify(gi, c).events == [
                 FillEvt(Fill(x.id, x.symbol, x.side, x.price, x.leaves - left, left, x.qty)),
                 TakerFillEvt(Fill(o.id, o.symbol, o.side, x.price, x.leaves - left, wants, o.qty))]
  {
    hide Valid, Present, Lookup, Add, Left, NotifyAll, Lost, Enters, Opposing;
    TradeInBooks(symbol, b, o, i);
    StillInSession(symbol, b, o, g, i);
    var t, gi := Add(b, o).trades[i], NotifyAll(g, Fills(Add(b, o).trades[..i])).gw;
    OtherSessions(gi, Trade(t.maker, t.maker), o.id);
  }

  // ---- The trades of a step ----

  /** The book an item's order enters, and that order: a new order the book as it is, a replaced
      one the book without it, with its new price and quantity. */
  function Entering(b: Book, item: WorkItem): (Book, Order)
    requires item.NewOrder? || (item.ReplaceItem? && Lookup(b, item.replace.id).Some?)
  {
    match item
    case NewOrder(o) => (b, o)
    case ReplaceItem(q) =>
      var o := Lookup(b, q.id).value;
      (Cancel(b, q.id), o.(price := q.price, qty := q.qty))
  }

  /** A step that makes a trade is the entry of a new order that was not killed, or of a replaced one. */
  lemma {:induction false} TradingStep(symbol: Symbol, b: Book, item: WorkItem, j: nat)
    requires Valid(symbol, b) && SymbolOf(item) == symbol
    requires item.NewOrder? ==> item.order.qty >= 1 && !Present(b, item.order.id)
    requires var cs := Process(b, item).calls; j < |cs| && cs[j].OnFill?
    ensures item.NewOrder? || (item.ReplaceItem? && Lookup(b, item.replace.id).Some?)
    ensures item.ReplaceItem? ==>
              !InPlace(Lookup(b, item.replace.id).value, item.replace.price, item.replace.qty)
    ensures item.NewOrder? ==> !Killed(b, item.order)
    ensures var (b1, o) := Entering(b, item);
            var cs, ts := Process(b, item).calls, Add(b1, o).trades;
            && Enters(symbol, b1, o) && Process(b, item).book == Add(b1, o).book
            && j < |ts| && cs[j] == OnFill(ts[j]) && cs[..j] == Fills(ts[..j])
  {
    hide Valid, Present, Lookup, Cancel, Killed;
    match item
    case NewOrder(o) =>
      assert Fills(Add(b, o).trades)[..j] == Fills(Add(b, o).trades[..j]);
    case CancelItem(_) =>
    case ReplaceItem(q) =>
      LookupFinds(symbol, b, q.id);
      CancelKeepsValid(symbol, b, q.id);
      assert Fills([]) == [];
      var ts := Replace(b, q.id, q.price, q.qty).trades;
      assert Fills(ts)[..j] == Fills(ts[..j]);
  }
}
