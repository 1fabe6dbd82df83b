/** Inputs at which the code falls short of what one would expect of it. Each is an instance
    of a condition that other modules show to be exact. */
module Examples {
  import opened Options
  import opened Orders
  import opened Matching
  import opened Books
  import opened Ledger
  import opened Engine
  import opened Views
  import opened MessageFactory
  import opened Gateway
  import opened Publishing
  import opened Leftovers
  import opened Agreement
  import opened Mirror
  import opened MirrorServer
  import opened Persistence
  import opened Requests
  import opened System
  import opened Crashes
  import opened Recovery
  import opened Theorems
  import opened FixFraming

  // ---- Running a few actions ----

  lemma {:induction false} ExecTwo(s: Sys, a: Action, b: Action)
    ensures Exec(s, [a, b]) == Next(Next(s, a), b)
    ensures Defined(s, a) && Defined(Next(s, a), b) ==> AllDefined(s, [a, b])
  {
    hide Next, Defined;
    var s1 := Next(s, a);
    assert [a, b][1..] == [b] && [b][1..] == [];
    assert Exec(s1, [b]) == Exec(Next(s1, b), []);
    assert AllDefined(Next(s1, b), []);
    assert Defined(s1, b) ==> AllDefined(s1, [b]);
  }

  lemma {:induction false} RunOn(s: Sys, run: seq<Action>, more: seq<Action>)
    requires AllDefined(s, run) && AllDefined(Exec(s, run), more)
    ensures AllDefined(s, run + more) && Exec(s, run + more) == Exec(Exec(s, run), more)
    decreases |run|
  {
    hide Next, Defined;
    if run == [] {
      assert run + more == more;
    } else {
      assert (run + more)[1..] == run[1..] + more;
      RunOn(Next(s, run[0]), run[1..], more);
    }
  }

  /** The state of the book and of the gateway's counter; nothing is queued. */
  ghost predicate Idles(s: Sys, b: Book, n: nat) {
    "A" in s.books && s.books["A"] == b && s.queue == [] && s.gw.seqNo == n && Inv(s)
  }

  /** A good limit order of n units for symbol A. */
  predicate LimitMsg(m: OrderMsg, side: Side, price: Price, n: int) {
    && m.symbol == "A" && m.side == side && m.typ.Limit? && m.tif.Gtc?
    && m.price == price > 0 && m.qty == n > 0 && m.riskOk
  }

  function OrderOf(m: OrderMsg, id: Id): Order {
    Order(id, m.client, m.symbol, m.side, m.typ, m.price, m.qty, m.qty, m.tif)
  }

  /** A limit order is submitted and handled. */
  lemma {:induction false} OneOrder(s: Sys, m: OrderMsg, session: Session, b: Book, n: nat, side: Side, price: Price)
    requires Idles(s, b, n) && Bound(s.gw) && LimitMsg(m, side, price, m.qty)
    ensures var run := [Submit(m, session), Dequeue];
            var e := Exec(s, run);
            && AllDefined(s, run) && Bound(e.gw)
            && Idles(e, Add(b, OrderOf(m, n + 1)).book, n + 1) && e.ghosts == s.ghosts
  {
    hide Base, BooksOk, GatewayOk, Inv, Next, Bound, Exec, AllDefined, Add, Process, AllProper, Published, UiOk;
    InvParts(s);
    var s1 := Next(s, Submit(m, session));
    NextIs(s, Submit(m, session));
    var o := OrderOf(m, n + 1);
    assert s1.queue == [NewOrder(o)];
    ExecTwo(s, Submit(m, session), Dequeue);
    assert AllDefined(s, [Submit(m, session), Dequeue]);
    BoundIsProper(s, [Submit(m, session), Dequeue]);
    ExecKeepsInv(s, [Submit(m, session), Dequeue]);
    NextKeepsBound(s, Submit(m, session));
    NextKeepsBound(s1, Dequeue);
    OneStep(s1, NewOrder(o));
    ProcessedBook(b, NewOrder(o));
  }

  lemma {:induction false} ProcessedBook(b: Book, item: WorkItem)
    ensures var b' := Process(b, item).book;
            match item
            case NewOrder(o) => o.tif.Gtc? ==> b' == Add(b, o).book
            case CancelItem(c) => b' == Cancel(b, c.id)
            case ReplaceItem(q) => b' == Replace(b, q.id, q.price, q.qty).book
  {
    hide Add, Cancel, Replace;
  }

  lemma {:induction false} OneStep(s: Sys, item: WorkItem)
    requires s.queue == [item] && SymbolOf(item) in s.books && SymbolOf(item) in s.ledgers
    ensures var s' := Next(s, Dequeue);
            var step := Process(s.books[SymbolOf(item)], item);
            var out := NotifyAll(s.gw, step.calls);
            && s'.books == s.books[SymbolOf(item) := step.book] && s'.queue == [] && s'.gw.seqNo == s.gw.seqNo
            && s'.Table() == ApplyEvents(s.Table(), out.events) && s'.Ui() == ApplyMds(s.Ui(), out.packets)
            && (!item.ReplaceItem? ==> s'.ghosts == s.ghosts)
            && (item.ReplaceItem? && Zeroes(s.books[SymbolOf(item)], item.replace) ==> item.replace.id in s'.blanks)
  {
    hide Process, NotifyAll, ApplyEvents, ApplyMds, Effects, KeptAfter, NewEntries, Drops;
    var s1 := s.(queue := s.queue[1..]);
    assert s.queue[1..] == [];
    SteppedFrame(s1, item);
    var step := Process(s.books[SymbolOf(item)], item);
    CallbacksOnlyRemove(s.gw, step.calls);
    ApplyEventsAppend(s.table0, s.log, NotifyAll(s.gw, step.calls).events);
    ApplyMdsAppend(s.ui0, s.feed, NotifyAll(s.gw, step.calls).packets);
  }

  /** A replace of a resting order is asked for and handled. */
  lemma {:induction false} OneReplace(s: Sys, q: ReplaceReq, b: Book, n: nat, o: Order)
    requires Idles(s, b, n) && q.symbol == "A" && 1 <= q.id <= n
    requires Lookup(b, q.id) == Some(o) && q.side == o.side && o.symbol == "A"
    ensures var e := Exec(s, [AskReplace(q), Dequeue]);
            && "A" in e.books && e.books["A"] == Replace(b, q.id, q.price, q.qty).book && e.queue == []
            && e.gw.seqNo == n
            && (Honoured(b, q) ==> AllDefined(s, [AskReplace(q), Dequeue]))
            && (Honoured(b, q) && Bound(s.gw) ==> Inv(e) && Bound(e.gw))
            && (FillsOnReentry(b, q) ==> q.id in e.ghosts && e.ghosts[q.id] == o)
            && (Zeroes(b, q) ==> q.id in e.blanks)
            && q.id in s.view && s.view[q.id] == o
  {
    hide Base, BooksOk, GatewayOk, Inv, Next, Bound, Exec, AllDefined, Process, AllProper, Lookup, Published, UiOk,
         FillsOnReentry, Stepped, Zeroes, Honoured;
    RecordOfBook(s, b, q.id, o);
    InvParts(s);
    var s1 := Next(s, AskReplace(q));
    NextIs(s, AskReplace(q));
    ExecTwo(s, AskReplace(q), Dequeue);
    OneStep(s1, ReplaceItem(q));
    ProcessedBook(b, ReplaceItem(q));
    if Honoured(b, q) && Bound(s.gw) {
      BoundIsProper(s, [AskReplace(q), Dequeue]);
      ExecKeepsInv(s, [AskReplace(q), Dequeue]);
      NextKeepsBound(s, AskReplace(q));
      NextKeepsBound(s1, Dequeue);
    }
    if FillsOnReentry(b, q) {
      LeavesAGhost(s1, q, o);
    }
  }

  lemma {:induction false} LeavesAGhost(s: Sys, q: ReplaceReq, o: Order)
    requires s.queue == [ReplaceItem(q)] && q.symbol in s.books && q.symbol in s.ledgers
    requires q.id in s.view && s.view[q.id] == o
    requires FillsOnReentry(s.books[q.symbol], q)
    ensures q.id in Next(s, Dequeue).ghosts && Next(s, Dequeue).ghosts[q.id] == o
  {
    hide Process, NotifyAll, Effects, KeptAfter, NewEntries, Drops, FillsOnReentry;
    assert s.queue[1..] == [];
  }

  lemma {:induction false} RecordOfBook(s: Sys, b: Book, id: Id, o: Order)
    requires Inv(s) && "A" in s.books && s.books["A"] == b && Lookup(b, id) == Some(o)
    ensures id in s.gw.active && s.gw.active[id] == o && id in s.view && s.view[id] == o
  {
    hide Inv, Base, GatewayOk, BooksOk, Published, UiOk, Lookup, Present;
    InvParts(s);
    FoundIsPresent(b, id);
    assert IsResting(s, "A", id);
    RecordOfResting(s, "A", id);
    ViewIsBooks(s);
  }

  lemma {:induction false} StartIdles()
    ensures Idles(Start({"A"}), EMPTY, 0) && Bound(Start({"A"}).gw)
  {
    hide Inv, Start, Bound;
    StartInv({"A"});
    StartFields({"A"});
  }

  // ---- Small books ----

  /** An order that crosses nothing rests alone on its side. */
  lemma {:induction false} RestsAlone(b: Book, o: Order)
    requires o.typ.Limit? && o.tif.Gtc? && o.qty > 0 && o.leaves == o.qty && b.On(o.side) == []
    requires var opp := b.On(o.side.Opposite()); opp == [] || !Crosses(o, opp[0].price)
    ensures Add(b, o).book == b.With(o.side, [o])
  {
    var opp := b.On(o.side.Opposite());
    assert o.(leaves := o.qty) == o && Sweep(o, opp) == Swept(o, opp, []);
    assert b.With(o.side.Opposite(), opp) == b;
    assert Insert([], o) == [o];
  }

  lemma {:induction false} FoundAlone(b: Book, o: Order)
    requires b.On(o.side) == [o] && (o.side.Sell? ==> b.bids == [] || (|b.bids| == 1 && b.bids[0].id != o.id))
    ensures Lookup(b, o.id) == Some(o)
  {
    assert Find([o], o.id) == 0;
  }

  /** An order that meets one larger order at its price is filled and leaves the rest of it. */
  lemma {:induction false} TakesPart(b: Book, o: Order, x: Order)
    requires b.On(o.side.Opposite()) == [x] && 0 < o.qty < x.leaves && o.leaves == o.qty && Crosses(o, x.price)
    ensures Add(b, o).book == b.With(o.side.Opposite(), [x.(leaves := x.leaves - o.qty)])
  {
    assert o.(leaves := o.qty) == o;
    assert [x][0 := x.(leaves := x.leaves - o.qty)] == [x.(leaves := x.leaves - o.qty)];
  }

  lemma {:induction false} SweepsOne(t: Order, x: Order)
    requires t.leaves >= x.leaves > 0 && Crosses(t, x.price)
    ensures Sweep(t, [x]) == Swept(t.(leaves := t.leaves - x.leaves), [], [TradeOf(t, x, x.leaves)])
  {
    hide TradeOf, Crosses;
    var t', tr := t.(leaves := t.leaves - x.leaves), TradeOf(t, x, x.leaves);
    assert [x][1..] == [];
    assert Sweep(t', []) == Swept(t', [], []);
    assert [tr] + [] == [tr];
  }

  lemma {:induction false} CancelsOne(b: Book, o: Order, x: Order)
    requires b.On(o.side) == [o] && b.On(o.side.Opposite()) == [x] && x.id != o.id
    ensures Cancel(b, o.id) == b.With(o.side, [])
  {
    assert Find([o], o.id) == 0 && Find([x], o.id) == 1;
    assert Remove([o], o.id) == [] && Remove([x], o.id) == [x];
  }

  /** A replace that meets one order on re-entry and takes all of it. */
  lemma {:induction false} ReplaceTakesAll(b: Book, o: Order, x: Order, q: ReplaceReq)
    requires b.On(o.side) == [o] && b.On(o.side.Opposite()) == [x] && x.id != o.id && q.id == o.id && o.typ.Limit?
    requires q.price == x.price != o.price && q.qty >= x.leaves > 0
    ensures var r := Replace(b, q.id, q.price, q.qty);
            && r.book.On(o.side.Opposite()) == [] && r.leaves == q.qty - x.leaves
            && r.trades == [TradeOf(o.(price := q.price, qty := q.qty, leaves := q.qty), x, x.leaves)]
            && (q.qty == x.leaves ==> r.book == EMPTY && FillsOnReentry(b, q))
  {
    hide Lookup, Cancel, Sweep, TradeOf, Insert, Available;
    FoundAlone(b, o);
    CancelsOne(b, o, x);
    SweepsOne(o.(price := q.price, qty := q.qty, leaves := q.qty), x);
    assert Available(o.(price := q.price, qty := q.qty), [x]) == x.leaves by {
      OneAvailable(o.(price := q.price, qty := q.qty), x);
    }
  }

  lemma {:induction false} OneAvailable(o: Order, x: Order)
    requires o.price == x.price
    ensures Available(o, [x]) == x.leaves
  {
    assert [x][1..] == [];
  }

  // ---- Replaces filled on re-entry ----

  /** A sell at 10 and a buy at 9, of equal size, both rest. */
  lemma {:induction false} TwoRest(sell: OrderMsg, buy: OrderMsg) returns (run: seq<Action>)
    requires LimitMsg(sell, Sell, 10, sell.qty) && LimitMsg(buy, Buy, 9, buy.qty)
    ensures var e := Exec(Start({"A"}), run);
            && AllDefined(Start({"A"}), run) && Bound(e.gw) && e.ghosts == map[]
            && Idles(e, Book([OrderOf(buy, 2)], [OrderOf(sell, 1)]), 2)
  {
    hide Start, Exec, AllDefined, Add, Idles, Bound;
    StartIdles();
    StartFields({"A"});
    var first, second := [Submit(sell, ""), Dequeue], [Submit(buy, ""), Dequeue];
    var ask, bid := OrderOf(sell, 1), OrderOf(buy, 2);
    OneOrder(Start({"A"}), sell, "", EMPTY, 0, Sell, 10);
    RestsAlone(EMPTY, ask);
    var s1 := Exec(Start({"A"}), first);
    OneOrder(s1, buy, "", Book([], [ask]), 1, Buy, 9);
    RestsAlone(Book([], [ask]), bid);
    RunOn(Start({"A"}), first, second);
    run := first + second;
  }

  /** A buy at 9 replaced to 10 against a resting sell of its size at 10 is filled silently. */
  lemma {:induction false} SilentRun(sell: OrderMsg, buy: OrderMsg) returns (run: seq<Action>)
    requires LimitMsg(sell, Sell, 10, sell.qty) && LimitMsg(buy, Buy, 9, sell.qty)
    ensures var e := Exec(Start({"A"}), run);
            && AllDefined(Start({"A"}), run) && Bound(e.gw)
            && Idles(e, EMPTY, 2) && 2 in e.ghosts && e.ghosts[2] == OrderOf(buy, 2)
  {
    hide Start, Exec, AllDefined, Bound, Replace, Lookup, FillsOnReentry, Inv, Zeroes;
    var first := TwoRest(sell, buy);
    var q := ReplaceReq(2, "A", Buy, 10, sell.qty);
    var b, bid, ask := Book([OrderOf(buy, 2)], [OrderOf(sell, 1)]), OrderOf(buy, 2), OrderOf(sell, 1);
    FoundAlone(b, bid);
    ReplaceTakesAll(b, bid, ask, q);
    OneReplace(Exec(Start({"A"}), first), q, b, 2, bid);
    RunOn(Start({"A"}), first, [AskReplace(q), Dequeue]);
    run := first + [AskReplace(q), Dequeue];
  }

  /** Such a run exists. */
  lemma {:induction false} SilentFillHappens()
    ensures exists run :: AllDefined(Start({"A"}), run) && !Quiet(Start({"A"}), run)
  {
    hide Start, Exec, AllDefined, AllProper, Quiet, Inv, Base, BooksOk, GatewayOk, Published, UiOk;
    var run := SilentRun(OrderMsg("S1", "A", Sell, Limit, 10, 5, Gtc, true, true),
                         OrderMsg("S2", "A", Buy, Limit, 9, 5, Gtc, true, true));
    StartInv({"A"});
    InvParts(Start({"A"}));
    GhostsIffSilent(Start({"A"}), run);
    StartFields({"A"});
    assert Exec(Start({"A"}), run).ghosts != map[];
    assert AllDefined(Start({"A"}), run) && !Quiet(Start({"A"}), run);
  }

  /** After it, a sell at the buy's old price comes to rest, and the table holds a bid and an ask
      at the same price. */
  lemma {:induction false} CrossedAfterSilentFill()
    ensures exists run :: AllDefined(Start({"A"}), run) && !NeverMeets(Start({"A"}), run)
                          && !Safe(Recovered(Exec(Start({"A"}), run).Table()))
  {
    hide Start, Exec, AllDefined, Inv, Bound, Add, GhostsUncrossed, NeverMeets, Safe, Recovered;
    var sell := OrderMsg("S1", "A", Sell, Limit, 10, 5, Gtc, true, true);
    var buy, low := OrderMsg("S2", "A", Buy, Limit, 9, 5, Gtc, true, true), sell.(price := 9);
    var first := SilentRun(sell, buy);
    var s := Exec(Start({"A"}), first);
    OneOrder(s, low, "", EMPTY, 2, Sell, 9);
    RestsAlone(EMPTY, OrderOf(low, 3));
    var run := first + [Submit(low, ""), Dequeue];
    RunOn(Start({"A"}), first, [Submit(low, ""), Dequeue]);
    var e := Exec(Start({"A"}), run);
    NowCrossed(e, OrderOf(buy, 2), OrderOf(low, 3));
    TableNotSafe(e);
    UnsafeCut(run);
    assert AllDefined(Start({"A"}), run) && !NeverMeets(Start({"A"}), run) && !Safe(Recovered(e.Table()));
  }

  lemma {:induction false} UnsafeCut(run: seq<Action>)
    requires AllDefined(Start({"A"}), run) && !Safe(Recovered(Exec(Start({"A"}), run).Table()))
    ensures !NeverMeets(Start({"A"}), run)
  {
    hide Start, Exec, AllDefined, NeverMeets, Quiet, Safe, Recovered;
    var e := Exec(Start({"A"}), run);
    StartFields({"A"});
    ExecFrame(Start({"A"}), run);
    assert e.log[..|e.log|] == e.log;
    CrashRecoveryIsSafeIff({"A"}, run);
  }

  lemma {:induction false} NowCrossed(s: Sys, bid: Order, ask: Order)
    requires Idles(s, Book([], [ask]), 3) && bid.id in s.ghosts && s.ghosts[bid.id] == bid && bid.id != ask.id
    requires bid.symbol == ask.symbol && bid.side.Buy? && ask.side.Sell? && bid.price == ask.price
    ensures !GhostsUncrossed(s.view, s.ghosts)
  {
    hide Inv, Base, BooksOk, GatewayOk, Published, UiOk, Lookup;
    FoundAlone(Book([], [ask]), ask);
    RecordOfBook(s, Book([], [ask]), ask.id, ask);
    InvParts(s);
    GhostIsPublished(s, bid.id);
    var p := s.view + s.ghosts;
    assert p[ask.id] == ask && p[bid.id] == bid && Opposed(p, bid.id, ask.id);
  }

  lemma {:induction false} TableNotSafe(s: Sys)
    requires Inv(s) && !GhostsUncrossed(s.view, s.ghosts)
    ensures !Safe(Recovered(s.Table()))
  {
    hide BooksOk, OrdersOk, QueueOk, Recorded, GatewayOk, UiOk, GhostsUncrossed, Safe, Rows, Recovered;
    RecoverableIff(s);
    RestorableIds(s);
  }

  lemma {:induction false} RestorableIds(s: Sys)
    requires BooksOk(s) && OrdersOk(s)
    ensures var v := Recovered(Rows(s.view + s.ghosts)); forall id :: id in v ==> id >= 1 && v[id].symbol in s.books
  {
    hide Accounted, AllFit, AllPositive, Keyed;
  }

  /** A snapshot does not remove the entry of a silently filled order, though it no longer rests. */
  lemma {:induction false} GhostSurvivesSnapshot(s: Sys, id: Id)
    requires Inv(s) && id in s.ghosts
    ensures var sym := s.ghosts[id].symbol;
            && sym in s.books && !Present(s.books[sym], id)
            && var m := Snapshot(s.Ui(), sym, s.books[sym].bids + s.books[sym].asks);
               id in m.orders && m.orders[id] == MdOf(s.ghosts[id])
  {
    hide Inv, Base, BooksOk, GatewayOk, Published, UiOk, Snapshot, Valid, Shows, Keyed, Present, Lookup;
    var sym := s.ghosts[id].symbol;
    InvParts(s);
    GhostIsPublished(s, id);
    BookOf(s, sym);
    FitsPresence(s.view, sym, s.books[sym], id);
    if sym in s.Ui().book {
      SnapshotOrders(s.Ui(), s.view, sym, s.books[sym]);
    } else {
      UnknownSymbol(s.Ui(), sym, s.books[sym]);
    }
  }

  lemma {:induction false} UnknownSymbol(m: Mirror.State, sym: Symbol, b: Book)
    requires sym !in m.book
    ensures Snapshot(m, sym, b.bids + b.asks) == m
  {
  }

  /** Such a snapshot can happen. */
  lemma {:induction false} StaleAfterSnapshot()
    ensures exists run, id ::
              var s := Exec(Start({"A"}), run);
              && AllDefined(Start({"A"}), run) && "A" in s.books && !Present(s.books["A"], id)
              && id in Snapshot(s.Ui(), "A", s.books["A"].bids + s.books["A"].asks).orders
  {
    hide Start, Exec, AllDefined, Inv, Snapshot, Present, Bound;
    var sell := OrderMsg("S1", "A", Sell, Limit, 10, 5, Gtc, true, true);
    var buy := OrderMsg("S2", "A", Buy, Limit, 9, 5, Gtc, true, true);
    var run := SilentRun(sell, buy);
    GhostSurvivesSnapshot(Exec(Start({"A"}), run), 2);
  }

  // ---- Replaces by less than one unit ----

  /** A buy at 9 rests alone. */
  lemma {:induction false} OneRests(buy: OrderMsg) returns (run: seq<Action>)
    requires LimitMsg(buy, Buy, 9, buy.qty)
    ensures var e := Exec(Start({"A"}), run);
            && AllDefined(Start({"A"}), run) && Bound(e.gw) && e.ghosts == map[]
            && Idles(e, Book([OrderOf(buy, 1)], []), 1)
            && Lookup(Book([OrderOf(buy, 1)], []), 1) == Some(OrderOf(buy, 1))
  {
    hide Start, Exec, Inv, Bound, Add, AllDefined, Lookup;
    StartIdles();
    StartFields({"A"});
    OneOrder(Start({"A"}), buy, "", EMPTY, 0, Buy, 9);
    RestsAlone(EMPTY, OrderOf(buy, 1));
    FoundAlone(Book([OrderOf(buy, 1)], []), OrderOf(buy, 1));
    run := [Submit(buy, ""), Dequeue];
  }

  /** A buy replaced in place by nothing stays in the book without quantity. */
  lemma {:induction false} EditedToNothing()
    ensures exists run, o: Order ::
              var s := Exec(Start({"A"}), run);
              "A" in s.books && Lookup(s.books["A"], 1) == Some(o) && o.leaves == 0 && !Valid("A", s.books["A"])
  {
    hide Start, Exec, Inv, Base, BooksOk, GatewayOk, Published, UiOk, Bound, Add, Replace, AllDefined, Lookup, Valid,
         AllProper;
    var buy := OrderMsg("S2", "A", Buy, Limit, 9, 5, Gtc, true, true);
    var bid, q := OrderOf(buy, 1), ReplaceReq(1, "A", Buy, 9, 0);
    var b := Book([bid], []);
    var first := OneRests(buy);
    var s := Exec(Start({"A"}), first);
    OneReplace(s, q, b, 1, bid);
    InvParts(s);
    BookOf(s, "A");
    EditLeavesNothing(b, bid, q);
    ExecSplit(Start({"A"}), first, [AskReplace(q), Dequeue]);
    var o := bid.(qty := 0, leaves := 0);
    assert Lookup(Exec(Start({"A"}), first + [AskReplace(q), Dequeue]).books["A"], 1) == Some(o) && o.leaves == 0;
  }

  /** A buy replaced by nothing at another price leaves the book, the gateway and the table, but
      the mirror keeps an entry for it, without quantity. */
  lemma {:induction false} EmptiedEntryStays()
    ensures exists run ::
              var s := Exec(Start({"A"}), run);
              && AllDefined(Start({"A"}), run) && "A" in s.books && !Present(s.books["A"], 1)
              && GatewayMatches(s) && TableMatches(s.Table(), s.books)
              && 1 in s.Ui().orders && s.Ui().orders[1].qty == 0 && !UiMatches(s.Ui(), s.books)
  {
    hide Start, Exec, Inv, Base, BooksOk, GatewayOk, TableOk, Recorded, UiOk, Bound, Replace, AllDefined, Lookup,
         FillsOnReentry, Present, GatewayMatches, TableMatches, UiMatches, Cancel;
    var buy := OrderMsg("S2", "A", Buy, Limit, 9, 5, Gtc, true, true);
    var bid, q := OrderOf(buy, 1), ReplaceReq(1, "A", Buy, 8, 0);
    var b := Book([bid], []);
    var first := OneRests(buy);
    var s, more := Exec(Start({"A"}), first), [AskReplace(q), Dequeue];
    OneReplace(s, q, b, 1, bid);
    RunOn(Start({"A"}), first, more);
    var e := Exec(Start({"A"}), first + more);
    InvParts(s);
    InvParts(e);
    assert Valid("A", b) by { BookOf(s, "A"); }
    ZeroIsCancel("A", b, q);
    QuietRun(s, q, b);
    TableHolds(e);
    RecordsMatch(e);
    BlankIsListed(e, 1);
    BlankNotShown(e, 1);
    assert AllDefined(Start({"A"}), first + more) && !Present(e.books["A"], 1);
  }

  lemma {:induction false} QuietRun(s: Sys, q: ReplaceReq, b: Book)
    requires Base(s) && s.ghosts == map[] && "A" in s.books && s.books["A"] == b && s.queue == []
    requires q.symbol == "A" && Zeroes(b, q)
    ensures Exec(s, [AskReplace(q), Dequeue]).ghosts == map[]
  {
    hide Base, Next, Exec, FillsOnReentry, Zeroes;
    NextIs(s, AskReplace(q));
    ExecTwo(s, AskReplace(q), Dequeue);
    NotBoth(b, q);
    NextFrame(s, AskReplace(q));
    var s1 := Next(s, AskReplace(q));
    if s1.queue == [] {
      NextFrame(s1, Dequeue);
    } else {
      NoNewGhost(s1, q);
    }
  }

  lemma {:induction false} NoNewGhost(s: Sys, q: ReplaceReq)
    requires s.queue == [ReplaceItem(q)] && q.symbol in s.books && !FillsOnReentry(s.books[q.symbol], q)
    ensures Next(s, Dequeue).ghosts == s.ghosts
  {
    hide Process, NotifyAll, Effects, KeptAfter, BlanksAfter, NewEntries, Drops, FillsOnReentry;
    assert s.queue[1..] == [];
  }

  lemma {:induction false} BlankIsListed(s: Sys, id: Id)
    requires UiOk(s) && id in s.blanks
    ensures id in s.Ui().orders && s.Ui().orders[id].qty == 0
  {
    hide Mirrors;
  }

  lemma {:induction false} EditLeavesNothing(b: Book, o: Order, q: ReplaceReq)
    requires Valid("A", b) && Lookup(b, o.id) == Some(o) && q.id == o.id && q.price == o.price && q.qty == 0 < o.leaves
    ensures var b' := Replace(b, q.id, q.price, q.qty).book;
            Lookup(b', o.id) == Some(o.(qty := 0, leaves := 0)) && !Valid("A", b')
  {
    hide Valid;
    ResizedLookup("A", b, o, 0);
    ReplaceKeepsValidIff("A", b, q.id, q.price, q.qty);
  }

  // ---- Reports ----

  /** A sell of five that has sold three is cancelled: two were left and three sold, and the
      report claims five and none. */
  lemma {:induction false} CancelReportWrong()
    ensures exists run, r: Report ::
              var s := Exec(Start({"A"}), run);
              && AllDefined(Start({"A"}), run) && IsResting(s, "A", 1)
              && "A" in s.ledgers && Cum(s.ledgers["A"], 1) == 3
              && Lookup(s.books["A"], 1).Some? && Lookup(s.books["A"], 1).value.leaves == 2
              && AllReports(s.gw, Process(s.books["A"], CancelItem(CancelReq(1, "A"))).calls) == [r]
              && r.Execution? && r.exec.Canceled? && r.leaves == 5 && r.cum == 0
  {
    hide Start, Exec, Inv, Base, BooksOk, GatewayOk, Published, UiOk, Bound, Add, AllDefined, Lookup, Cum, Present,
         AllProper;
    var sell := OrderMsg("S1", "A", Sell, Limit, 10, 5, Gtc, true, true);
    var buy := OrderMsg("S2", "A", Buy, Limit, 10, 3, Gtc, true, true);
    var ask, bid := OrderOf(sell, 1), OrderOf(buy, 2);
    var first, second := [Submit(sell, ""), Dequeue], [Submit(buy, ""), Dequeue];
    StartIdles();
    OneOrder(Start({"A"}), sell, "", EMPTY, 0, Sell, 10);
    RestsAlone(EMPTY, ask);
    var s1 := Exec(Start({"A"}), first);
    OneOrder(s1, buy, "", Book([], [ask]), 1, Buy, 10);
    TakesPart(Book([], [ask]), bid, ask);
    RunOn(Start({"A"}), first, second);
    var e, left := Exec(Start({"A"}), first + second), ask.(leaves := 2);
    FoundAlone(Book([], [left]), left);
    FoundIsPresent(Book([], [left]), 1);
    InvParts(e);
    RecordOfBook(e, Book([], [left]), 1, left);
    ReportsCumulate(e, "A", 1);
    var r := CancelledReport(e.gw, Book([], [left]), CancelReq(1, "A"), left);
    assert r.leaves == 5 && r.cum == 0;
  }

  lemma {:induction false} CancelledReport(g: Gw, b: Book, c: CancelReq, o: Order) returns (r: Report)
    requires Bound(g) && c.id in g.active && g.active[c.id] == o && Present(b, c.id)
    ensures AllReports(g, Process(b, CancelItem(c)).calls) == [r]
    ensures r.Execution? && r.exec.Canceled? && r.leaves == o.qty && r.cum == 0
  {
    hide Present, Cancel;
    r := OrderReport(o, Canceled);
    ReportsAppend(g, [], OnCancel(c, true));
    assert [] + [OnCancel(c, true)] == [OnCancel(c, true)];
  }

  /** A buy of five is replaced to meet a sell of two: three are left and two bought, and the
      report claims five and none. */
  lemma {:induction false} ReplaceReportWrong()
    ensures exists run, q: ReplaceReq, r: Report ::
              var s := Exec(Start({"A"}), run);
              && AllDefined(Start({"A"}), run) && "A" in s.books && Present(s.books["A"], q.id)
              && var o := Replace(s.books["A"], q.id, q.price, q.qty);
                 && o.leaves == 3 && TakerQty(o.trades) == 2
                 && Reports(NotifyAll(s.gw, Fills(o.trades)).gw, OnReplace(q, true, o.leaves)) == [r]
                 && r.Execution? && r.exec.Replaced? && r.leaves == 5 && r.cum == 0
  {
    hide Start, Exec, Inv, Bound, AllDefined, Lookup, Present, Replace, TakerQty, Reports, NotifyAll, Fills, TradeOf;
    var sell := OrderMsg("S1", "A", Sell, Limit, 10, 2, Gtc, true, true);
    var buy := OrderMsg("S2", "A", Buy, Limit, 9, 5, Gtc, true, true);
    var ask, bid, q := OrderOf(sell, 1), OrderOf(buy, 2), ReplaceReq(2, "A", Buy, 10, 5);
    var run := TwoRest(sell, buy);
    var s, b := Exec(Start({"A"}), run), Book([bid], [ask]);
    FoundAlone(b, bid);
    FoundIsPresent(b, 2);
    ReplaceTakesAll(b, bid, ask, q);
    RecordOfBook(s, b, 2, bid);
    var r := PartReport(s.gw, q, bid, ask);
    assert Replace(s.books["A"], q.id, q.price, q.qty).leaves == 3;
  }

  /** The report after one fill that leaves something of the order. */
  lemma {:induction false} PartReport(g: Gw, q: ReplaceReq, o: Order, x: Order) returns (r: Report)
    requires Bound(g) && q.id in g.active && o.id == q.id && x.id != q.id && q.qty > x.leaves > 0
    ensures var ts := [TradeOf(o.(price := q.price, qty := q.qty, leaves := q.qty), x, x.leaves)];
            && TakerQty(ts) == x.leaves
            && Reports(NotifyAll(g, Fills(ts)).gw, OnReplace(q, true, q.qty - x.leaves)) == [r]
    ensures r.Execution? && r.exec.Replaced? && r.leaves == q.qty && r.cum == 0
  {
    var t := TradeOf(o.(price := q.price, qty := q.qty, leaves := q.qty), x, x.leaves);
    var ts, c := [t], OnReplace(q, true, q.qty - x.leaves);
    assert ts[1..] == [];
    assert TakerQty(ts) == t.taker.qty + TakerQty([]);
    assert Fills(ts) == [OnFill(t)];
    NotifyOne(g, OnFill(t));
    var g1 := NotifyAll(g, Fills(ts)).gw;
    assert g1.Knows(q.id);
    r := Reports(g1, c)[0];
  }

  // ---- Before the owner logs on ----

  /** The exchange restarted from a table with one row. */
  ghost function OneRestored(row: Row): Sys {
    var o := Loaded(1, row);
    Restarted({"A"}, map[1 := row], [o], 1, Snapshots(Blank({"A"}), map["A" := Restore(EMPTY, o)], ["A"]))
  }

  lemma {:induction false} RestoredAlone(row: Row)
    requires row.symbol == "A" && row.leaves > 0
    ensures var s, o := OneRestored(row), Loaded(1, row);
            && Idles(s, Restore(EMPTY, o), 1) && s.gw.sessions == map[] && s.ghosts == map[] && s.blanks == {}
            && Lookup(Restore(EMPTY, o), 1) == Some(o)
  {
    hide Inv, Restarted, Snapshots, Blank, Mirrors, AllFit, Safe, RestoreAll, Emplace, Lookup, Loaded, EmptyBooks;
    var t, o := map[1 := row], Loaded(1, row);
    LoadedIs(row);
    var books := map["A" := Restore(EMPTY, o)];
    assert Recovered(t) == map[1 := o];
    assert Restorable(Recovered(t), {"A"}) by { AloneIsSafe(o); }
    assert [o][0].id == 1;
    assert Enumerates([o], Recovered(t));
    assert IsMaxSeq(t, 1);
    OneRestoredBook(o);
    assert Known(Recovered(t), {"A"}) == Recovered(t);
    RecoveryRebuildsIff(t, {"A"}, [o]);
    SnapshotsMirror(Recovered(t), books, ["A"]);
    RestartInv({"A"}, t, [o], 1, Snapshots(Blank({"A"}), books, ["A"]));
    RestartFields({"A"}, t, [o], 1, Snapshots(Blank({"A"}), books, ["A"]));
    AloneInBook(o);
  }

  lemma {:induction false} LoadedIs(row: Row)
    ensures var o := Loaded(1, row);
            && o.id == 1 && o.symbol == row.symbol && o.side == row.side && o.price == row.price && o.typ.Limit?
            && o.tif.Gtc? && o.qty == o.leaves == row.leaves
  {
  }

  lemma {:induction false} AloneIsSafe(o: Order)
    requires o.id == 1 && RestingOrder(o.symbol, o.side, o)
    ensures Safe(map[1 := o])
  {
  }

  lemma {:induction false} AloneInBook(o: Order)
    ensures Restore(EMPTY, o) == EMPTY.With(o.side, [o]) && Lookup(Restore(EMPTY, o), o.id) == Some(o)
  {
    assert Insert([], o) == [o];
    assert Find([o], o.id) == 0;
  }

  lemma {:induction false} OneRestoredBook(o: Order)
    requires o.symbol == "A"
    ensures RestoreAll(EmptyBooks({"A"}), [o]) == map["A" := Restore(EMPTY, o)]
  {
    assert [o][1..] == [];
    assert RestoreOne(EmptyBooks({"A"}), o) == map["A" := Restore(EMPTY, o)];
  }

  /** A restored order is cancelled before its owner logs on: it leaves the book, and table and
      mirror keep it. */
  lemma {:induction false} EarlyCancelLost(row: Row)
    requires row.symbol == "A" && row.leaves > 0
    ensures var e := Exec(OneRestored(row), [AskCancel(CancelReq(1, "A")), Dequeue]);
            && "A" in e.books && !Present(e.books["A"], 1)
            && !TableMatches(e.Table(), e.books) && !UiMatches(e.Ui(), e.books)
  {
    hide Base, BooksOk, GatewayOk, TableOk, Recorded, UiOk, Inv, OneRestored, Next, Exec, Lookup, Present, Process,
         NotifyAll, Restore, ApplyEvents, ApplyMds, TableShows, MirrorShows, Cancel;
    RestoredAlone(row);
    var s, o, c := OneRestored(row), Loaded(1, row), CancelReq(1, "A");
    var b := Restore(EMPTY, o);
    FoundIsPresent(b, 1);
    RecordOfBook(s, b, 1, o);
    ExecTwo(s, AskCancel(c), Dequeue);
    NextIs(s, AskCancel(c));
    InvParts(s);
    OneStep(Next(s, AskCancel(c)), CancelItem(c));
    BookOf(s, "A");
    TableIsView(s);
    CancelPublishedIff(s.gw, s.view, s.Ui(), "A", b, c);
    ProcessedBook(b, CancelItem(c));
    CancelKeepsValid("A", b, 1);
  }

  /** A restored order is replaced before its owner logs on: table and mirror do not follow,
      unless the replace asks for what already rests. */
  lemma {:induction false} EarlyReplaceLost(row: Row, q: ReplaceReq)
    requires row.symbol == "A" && row.leaves > 0
    requires q.id == 1 && q.symbol == "A" && q.side == row.side && !(q.price == row.price && q.qty == row.leaves)
    ensures var e := Exec(OneRestored(row), [AskReplace(q), Dequeue]);
            !TableMatches(e.Table(), e.books) && !UiMatches(e.Ui(), e.books)
  {
    hide Base, BooksOk, GatewayOk, TableOk, Recorded, UiOk, Inv, OneRestored, Next, Exec, Lookup, Present, Process,
         NotifyAll, Restore, ApplyEvents, ApplyMds, TableShows, MirrorShows, Replace, Loaded;
    RestoredAlone(row);
    LoadedIs(row);
    var s, o := OneRestored(row), Loaded(1, row);
    var b := Restore(EMPTY, o);
    FoundIsPresent(b, 1);
    RecordOfBook(s, b, 1, o);
    ExecTwo(s, AskReplace(q), Dequeue);
    NextIs(s, AskReplace(q));
    InvParts(s);
    OneStep(Next(s, AskReplace(q)), ReplaceItem(q));
    BookOf(s, "A");
    TableIsView(s);
    BaseParts(s);
    PositiveView(s);
    hide AllPositive, Valid, Shows, Keyed, Mirrors;
    UnknownReplacePublishedIff(s.gw, s.view, s.Ui(), "A", b, q);
    var e, step := Exec(s, [AskReplace(q), Dequeue]), Process(b, ReplaceItem(q));
    assert e.books["A"] == step.book;
    assert e.Table() == ApplyEvents(Rows(s.view), NotifyAll(s.gw, step.calls).events);
    assert !TableShows(e.Table(), "A", step.book);
  }

  /** A restored sell is filled before its owner logs on: its record stays, and the owner is
      later bound to an order that no longer rests. */
  lemma {:induction false} EarlyFillStale(row: Row, buy: OrderMsg)
    requires row.symbol == "A" && row.side.Sell? && row.leaves > 0 && LimitMsg(buy, Buy, row.price, buy.qty)
    ensures !AlwaysMatches(OneRestored(row), [Submit(buy, ""), Dequeue])
  {
    hide Inv, Base, BooksOk, GatewayOk, Published, UiOk, OneRestored, Next, Restore, AlwaysMatches, AllProper, Loaded,
         Untouched, Add, AllRegistered;
    RestoredAlone(row);
    LoadedIs(row);
    AloneInBook(Loaded(1, row));
    var s, o, run := OneRestored(row), OrderOf(buy, 2), [Submit(buy, ""), Dequeue];
    NextIs(s, Submit(buy, ""));
    var s1 := Next(s, Submit(buy, ""));
    TakesFromUnbound(s1.gw, s1.books["A"], Loaded(1, row), o);
    FillRun(s, run[0], run[1]);
    InvParts(s);
    GatewayAgreesThroughoutIff(s, run);
  }

  lemma {:induction false} TakesFromUnbound(g: Gw, b: Book, x: Order, o: Order)
    requires b.On(o.side.Opposite()) == [x] && x.id !in g.sessions && x.leaves > 0 && o.qty > 0
    requires o.typ.Limit? && o.tif.Gtc? && Crosses(o, x.price)
    ensures !Untouched(g, b, NewOrder(o))
  {
    var r := Sweep(o.(leaves := o.qty), [x]);
    assert |r.trades| >= 1;
  }

  lemma {:induction false} FillRun(s: Sys, a: Action, b: Action)
    requires Registered(s, a) && Registered(Next(s, a), b) && !Proper(Next(s, a), b)
    ensures AllRegistered(s, [a, b]) && !AllProper(s, [a, b])
  {
    hide Next, Registered, Proper;
    var s1 := Next(s, a);
    assert [a, b][1..] == [b] && [b][1..] == [];
    assert AllRegistered(Next(s1, b), []);
    assert AllRegistered(s1, [b]) && !AllProper(s1, [b]);
  }

  // ---- Framing ----

  /** A well-formed message with tag 110 is cut in two. */
  lemma {:induction false} TagBreaksFrame(m: Msg)
    requires m.fields == [Field("110", "5")]
    ensures !Whole(Build(m))
  {
    hide Build, Join, Whole;
    var fs := m.Head();
    assert fs[7] == Field("110", "5");
    MarkedField(fs[7]);
    BuiltIsWholeIff(m);
  }

  lemma {:induction false} MarkedField(f: Field)
    requires f == Field("110", "5")
    ensures HasMark(Pair(f))
  {
    assert Pair(f) == "110=5";
    assert Mark(Pair(f), 1);
  }
}
