/** What clients can count on, message by message: which orders and requests are taken in, as
    what, and what they are told of their trades. */
module Service {
  import opened Options
  import opened Orders
  import opened Books
  import opened MessageFactory
  import opened Ledger
  import opened Engine
  import opened Dispatch
  import opened Executions
  import opened Views
  import opened Gateway
  import opened Publishing
  import opened Leftovers
  import opened System
  import opened Recovery
  import opened Theorems

  // ---- Orders ----

  /** An order message is taken in if and only if its quantity is positive, its price too if it is
      a limit order, its symbol registered and its risk check passed. In any case it uses up an
      id. Taken in, it is queued as what the client asked for, the price being zero if it is
      not a limit order, and the id belongs to the session it came from. */
  lemma {:induction false} SubmitEnters(s: Sys, msg: OrderMsg, session: Session)
    ensures var s', id := Next(s, Submit(msg, session)), s.gw.seqNo + 1;
            if msg.qty > 0 && (msg.typ.Limit? ==> msg.price > 0) && msg.symbol in s.books && msg.riskOk
            then
              && |s'.queue| == |s.queue| + 1 && s'.queue[..|s.queue|] == s.queue && s'.queue[|s.queue|].NewOrder?
              && var o := s'.queue[|s.queue|].order;
                 && o.id == id && o.client == msg.client && o.symbol == msg.symbol && o.side == msg.side
                 && o.typ == msg.typ && o.tif == msg.tif && o.qty == o.leaves == msg.qty
                 && o.price == (if msg.typ == Limit then msg.price else 0)
                 && s'.gw == Gw(s.gw.sessions[id := session], s.gw.active[id := o], id)
                 && s' == s.(gw := s'.gw, queue := s'.queue, kept := s'.kept)
            else s' == s.(gw := s.gw.(seqNo := id))
  {
    hide Stepped;
    assert (s.queue + [NewOrder(OrderFrom(s.gw, msg))])[..|s.queue|] == s.queue;
  }

  /** The id is none of a resting order, and if it waits, it does so with this time in force. */
  ghost predicate Waiting(s: Sys, id: Id) {
    && id <= s.gw.seqNo && id !in s.view
    && (id in s.kept ==> !s.kept[id].tif.Gtc?)
  }

  /** No immediate-or-cancel or fill-or-kill order ever rests, at any moment after its message. */
  lemma {:induction false} ImmediateNeverRests(s: Sys, msg: OrderMsg, session: Session, id: Id, run: seq<Action>)
    requires Base(s) && !msg.tif.Gtc? && id == s.gw.seqNo + 1 && AllDefined(Next(s, Submit(msg, session)), run)
    ensures forall sym :: !IsResting(Exec(Next(s, Submit(msg, session)), run), sym, id)
  {
    hide Base, BooksOk, OrdersOk, AllDefined, Exec, IsResting, Next;
    var s1 := Next(s, Submit(msg, session));
    BaseParts(s);
    NewId(s, id);
    NextIs(s, Submit(msg, session));
    assert Defined(s, Submit(msg, session));
    NextKeepsBase(s, Submit(msg, session));
    StaysWaiting(s1, run, id);
    ExecKeepsBase(s1, run);
    BaseParts(Exec(s1, run));
    ViewIsBooks(Exec(s1, run));
  }

  lemma {:induction false} StaysWaiting(s: Sys, run: seq<Action>, id: Id)
    requires Base(s) && AllDefined(s, run) && Waiting(s, id)
    ensures Waiting(Exec(s, run), id)
    decreases |run|
  {
    hide Base, Next, Waiting, Defined;
    if run != [] {
      NextKeepsBase(s, run[0]);
      StillWaiting(s, run[0], id);
      StaysWaiting(Next(s, run[0]), run[1..], id);
    }
  }

  lemma {:induction false} StillWaiting(s: Sys, a: Action, id: Id)
    requires Base(s) && Defined(s, a) && Waiting(s, id)
    ensures Waiting(Next(s, a), id)
  {
    hide Base, BooksOk, OrdersOk, QueueOk, Recorded, Next, Stepped, OnOrderMsg, Rebind, Accepts, ForwardsReplace,
         ForwardsCancel, Due, Answerable;
    SeqGrows(s, a);
    NextIs(s, a);
    if a.Dequeue? && s.queue != [] {
      DequeueIsStep(s);
      StepWaits(s.(queue := s.queue[1..]), s.queue[0], id);
    } else {
      NextFrame(s, a);
    }
  }

  lemma {:induction false} StepWaits(s: Sys, item: WorkItem, id: Id)
    requires BooksOk(s) && OrdersOk(s) && Due(s, item) && SymbolOf(item) in s.ledgers && Waiting(s, id)
    ensures id !in Stepped(s, item).view
    ensures id in Stepped(s, item).kept ==> !Stepped(s, item).kept[id].tif.Gtc?
  {
    hide BooksOk, OrdersOk, Process, NotifyAll, Effects, NewEntries, Drops, GhostsAfter, BlanksAfter, Valid, Shows,
         Keyed, Add, Answerable;
    var sym := SymbolOf(item);
    var b, v := s.books[sym], s.view;
    ApartViews(s);
    DueIsAcceptable(s, item);
    StepKeeps(v, b, item);
    if id == IdOf(item) && item.NewOrder? {
      var o := item.order;
      hide Acceptable;
      NewIsAbsent(v, sym, b, o);
      NewOrderFate(sym, b, o);
      ProcessFits(v, sym, b, item);
      FitsPresence(Effects(v, Process(b, item).calls), sym, Process(b, item).book, id);
    }
  }

  lemma {:induction false} NewIsAbsent(v: View, symbol: Symbol, b: Book, o: Order)
    requires Acceptable(symbol, b, v, NewOrder(o)) && Fits(v, symbol, b) && Valid(symbol, b) && Keyed(v)
    ensures o.symbol == symbol && o.qty >= 1 && !Present(b, o.id)
  {
    hide Valid, Shows, Keyed, Present;
    FitsPresence(v, symbol, b, o.id);
  }

  // ---- Cancels and replaces ----

  /** Order messages of the run have been given this id. */
  predicate Issued(s: Sys, run: seq<Action>, id: Id) {
    exists i :: 0 <= i < |run| && run[i].Submit? && IssuedAt(s, run, i) == id
  }

  /** The ids issued in a run are those between the counter's values. */
  lemma {:induction false} IssuedIff(s: Sys, run: seq<Action>, id: Id)
    ensures Issued(s, run, id) <==> s.gw.seqNo < id <= Exec(s, run).gw.seqNo
    decreases |run|
  {
    hide Next, Exec;
    if run == [] {
      assert Exec(s, run) == s by { NothingDone(s); }
    } else {
      var n := |run| - 1;
      var head, s1 := run[..n], Exec(s, run[..n]);
      assert run == head + [run[n]];
      ExecSplit(s, head, [run[n]]);
      ExecCons(s1, run[n], []);
      assert [run[n]] + [] == [run[n]];
      NothingDone(Next(s1, run[n]));
      IssuedIff(s, head, id);
      Counts(s1, run[n]);
      SeqMono(s, head);
      forall i | 0 <= i < n
        ensures IssuedAt(s, run, i) == IssuedAt(s, head, i) && run[i] == head[i]
      {
        assert run[..i] == head[..i];
      }
      if Issued(s, head, id) {
        var i :| 0 <= i < |head| && head[i].Submit? && IssuedAt(s, head, i) == id;
        assert run[i].Submit? && IssuedAt(s, run, i) == id;
      }
      if Issued(s, run, id) {
        var i :| 0 <= i < |run| && run[i].Submit? && IssuedAt(s, run, i) == id;
        assert i < n ==> head[i].Submit? && IssuedAt(s, head, i) == id;
      }
      if run[n].Submit? {
        assert IssuedAt(s, run, n) == s1.gw.seqNo + 1;
      }
    }
  }

  lemma {:induction false} NothingDone(s: Sys)
    ensures Exec(s, []) == s
  {
  }

  /** Only order messages move the counter, by one. */
  lemma {:induction false} Counts(s: Sys, a: Action)
    ensures Next(s, a).gw.seqNo == s.gw.seqNo + if a.Submit? then 1 else 0
  {
    hide Process, NotifyAll, Stepped, Next, Accepts, ForwardsCancel, ForwardsReplace;
    NextIs(s, a);
    if a.Dequeue? && s.queue != [] && SymbolOf(s.queue[0]) in s.books && SymbolOf(s.queue[0]) in s.ledgers {
      SteppedFrame(s.(queue := s.queue[1..]), s.queue[0]);
      CallbacksOnlyRemove(s.gw, Process(s.books[SymbolOf(s.queue[0])], s.queue[0]).calls);
    }
  }

  /** From an empty exchange, a cancel joins the queue if its id has been issued, whatever became of
      the order, and otherwise changes nothing. */
  lemma {:induction false} CancelTakenInIff(symbols: set<Symbol>, run: seq<Action>, c: CancelReq)
    ensures var s := Exec(Start(symbols), run);
            Next(s, AskCancel(c))
            == if Issued(Start(symbols), run, c.id) then s.(queue := s.queue + [CancelItem(c)]) else s
  {
    hide Start, Exec, Issued;
    StartFields(symbols);
    IssuedIff(Start(symbols), run, c.id);
  }

  /** The order rests, waits in the queue, was dropped, or is published though it no longer rests. */
  ghost predicate Around(s: Sys, id: Id) {
    id in s.dropped || Queued(s.queue, id) || id in s.ghosts || exists sym :: IsResting(s, sym, id)
  }

  /** In every reachable state, after a restart too, a cancel of an order that is around joins
      the queue, and so does one of an order issued in the run since; one with an id that was
      never given to any order changes nothing. */
  lemma {:induction false} CancelOfKnown(s: Sys, run: seq<Action>, c: CancelReq)
    requires Base(s) && AllDefined(s, run)
    ensures var e := Exec(s, run);
            && (Around(e, c.id) || Issued(s, run, c.id) ==>
                  Next(e, AskCancel(c)) == e.(queue := e.queue + [CancelItem(c)]))
            && (c.id == 0 || c.id > e.gw.seqNo ==> Next(e, AskCancel(c)) == e)
  {
    hide Base, BooksOk, QueueOk, Exec, Issued, AllDefined, IsResting, Queued, AllPositive, Keyed;
    var e := Exec(s, run);
    ExecKeepsBase(s, run);
    BaseParts(e);
    IssuedIff(s, run, c.id);
    KeptAre(e);
    ViewIsBooks(e);
  }

  /** In every reachable state: a replace of a resting order joins the queue if it names the order's
      symbol and side, and otherwise changes nothing. So does a replace of an order still
      waiting in the queue, or of one that was dropped; and one with an id that was never issued
      changes nothing. */
  lemma {:induction false} ReplaceTakenIn(s: Sys, q: ReplaceReq)
    requires Base(s)
    ensures forall sym :: IsResting(s, sym, q.id) && Lookup(s.books[sym], q.id).Some? ==>
              Next(s, AskReplace(q))
              == if q.symbol == sym && q.side == Lookup(s.books[sym], q.id).value.side
                 then s.(queue := s.queue + [ReplaceItem(q)]) else s
    ensures forall i :: 0 <= i < |s.queue| && s.queue[i].NewOrder? && s.queue[i].order.id == q.id ==>
              Next(s, AskReplace(q))
              == if q.symbol == s.queue[i].order.symbol && q.side == s.queue[i].order.side
                 then s.(queue := s.queue + [ReplaceItem(q)]) else s
    ensures q.id in s.dropped ==>
              && q.id in s.kept
              && Next(s, AskReplace(q))
                 == if q.symbol == s.kept[q.id].symbol && q.side == s.kept[q.id].side
                    then s.(queue := s.queue + [ReplaceItem(q)]) else s
    ensures q.id == 0 || q.id > s.gw.seqNo ==> Next(s, AskReplace(q)) == s
  {
    hide BooksOk, IsResting, Lookup, AllPositive, Keyed, Stepped;
    ViewIsBooks(s);
    forall i | 0 <= i < |s.queue| && s.queue[i].NewOrder? && s.queue[i].order.id == q.id
      ensures q.id in s.kept && s.kept[q.id] == s.queue[i].order
    {
      assert ItemOk(s, s.queue[i]);
    }
  }

  /** Where the gateway's records are exact: a replace with an issued id of an order that neither
      rests nor waits, whatever it names, joins the queue. */
  lemma {:induction false} ReplaceOfGone(s: Sys, q: ReplaceReq)
    requires Base(s) && GatewayOk(s) && 1 <= q.id <= s.gw.seqNo
    requires q.id !in s.dropped && !Queued(s.queue, q.id) && forall sym :: !IsResting(s, sym, q.id)
    ensures Next(s, AskReplace(q)) == s.(queue := s.queue + [ReplaceItem(q)])
  {
    hide Base, BooksOk, QueueOk, GatewayOk, IsResting, Queued, Stepped;
    BaseParts(s);
    KeptAre(s);
    ViewIsBooks(s);
    KnownOrders(s);
  }

  // ---- Trades ----

  /** The j-th callback of the step about to be taken is a trade. Each party with a session gets
      exactly one report of it; its LeavesQty is what rests of the maker afterwards, or what
      the order that entered still wants; its CumQty is what the order has traded since it
      entered or was resized; it says Filled exactly if nothing is left. The feed gets one
      update of the resting order and one trade print, with the quantity that the maker lost
      and the maker's price. */
  lemma {:induction false} FillsAreReported(s: Sys, j: nat)
    requires Base(s) && Defined(s, Dequeue) && s.queue != []
    requires var cs := Process(s.books[SymbolOf(s.queue[0])], s.queue[0]).calls; j < |cs| && cs[j].OnFill?
    ensures var item := s.queue[0];
            item.NewOrder? || (item.ReplaceItem? && Lookup(s.books[SymbolOf(item)], item.replace.id).Some?)
    ensures var item, s' := s.queue[0], Next(s, Dequeue);
            var sym := SymbolOf(item);
            var cs, (b, o) := Process(s.books[sym], item).calls, Entering(s.books[sym], item);
            && j < |Opposing(b, o)| && sym in s'.books && sym in s.ledgers && sym in s'.ledgers
            && var x := Opposing(b, o)[j];
               var left, wants := Left(s'.books[sym], x.id), o.qty - Lost(Opposing(b, o), s'.books[sym], j + 1);
               && AllReports(s.gw, cs[..j + 1])
                  == AllReports(s.gw, cs[..j])
                     + (ReportDue(s.gw, x.id, x.qty, left) + ReportDue(s.gw, o.id, o.qty, wants))
               && NotifyAll(s.gw, cs[..j + 1]).packets
                  == NotifyAll(s.gw, cs[..j]).packets
                     + [Packet(FillRestingPkt, if x.side.Buy? then BidSide else AskSide, sym, x.price, left, x.id),
                        Packet(TradePkt, TradeSide, sym, x.price, x.leaves - left, x.id)]
               && var n := |s.ledgers[sym]| + (if item.NewOrder? then 2 else 3) + j;
                  && n <= |s'.ledgers[sym]|
                  && Cum(s'.ledgers[sym][..n], x.id) == x.qty - left
                  && Cum(s'.ledgers[sym][..n], o.id) == o.qty - wants
  {
    hide Base, BooksOk, Process, AllReports, NotifyAll, Notify, Reports, Left, Lost, Opposing, Entering, Add, Lookup,
         Next, Stepped, Valid, Shows, Keyed, Acceptable, Due, Answerable, Enters, NewEntries, Cum, Accounted, Present;
    var item, g := s.queue[0], s.gw;
    var sym := SymbolOf(item);
    var b, cs, s' := s.books[sym], Process(s.books[sym], item).calls, Next(s, Dequeue);
    BaseParts(s);
    BookOf(s, sym);
    FrontIsFresh(s);
    TradingStep(sym, b, item, j);
    var (b1, o) := Entering(b, item);
    TradeInBooks(sym, b1, o, j);
    OtherOrder(sym, b1, o, j);
    TradeIsSent(sym, b1, o, g, j);
    assert cs[..j + 1] == cs[..j] + [cs[j]];
    ReportsAppend(g, cs[..j], cs[j]);
    NotifyAppend(g, cs[..j], [cs[j]]);
    NotifyOne(NotifyAll(g, cs[..j]).gw, cs[j]);
    AfterDequeue(s);
    NextKeepsBase(s, Dequeue);
    BaseParts(s');
    BookOf(s', sym);
    EntryOfTrade(sym, b, item, j);
    HonestAt(sym, s'.books[sym], s.ledgers[sym], NewEntries(b, item), (if item.NewOrder? then 1 else 2) + j);
  }

  lemma {:induction false} FrontIsFresh(s: Sys)
    requires Base(s) && Defined(s, Dequeue) && s.queue != []
    ensures var item, b := s.queue[0], s.books[SymbolOf(s.queue[0])];
            item.NewOrder? ==> item.order.qty >= 1 && !Present(b, item.order.id)
  {
    hide Base, BooksOk, Valid, Shows, Keyed, Present, Due, Acceptable;
    BaseParts(s);
    FrontIsDue(s);
    DueIsAcceptable(s, s.queue[0]);
    if s.queue[0].NewOrder? {
      NewIsAbsent(s.view, SymbolOf(s.queue[0]), s.books[SymbolOf(s.queue[0])], s.queue[0].order);
    }
  }

  /** A dequeue's new book and its entries in the history. */
  lemma {:induction false} AfterDequeue(s: Sys)
    requires Base(s) && Defined(s, Dequeue) && s.queue != []
    ensures var item, s' := s.queue[0], Next(s, Dequeue);
            var sym := SymbolOf(item);
            && sym in s.ledgers && sym in s'.books && sym in s'.ledgers
            && s'.books[sym] == Process(s.books[sym], item).book
            && s'.ledgers[sym] == s.ledgers[sym] + NewEntries(s.books[sym], item)
  {
    hide Base, BooksOk, OrdersOk, Recorded, Process, NotifyAll, Effects, KeptAfter, GhostsAfter, BlanksAfter,
         NewEntries, Drops, Due, Next, Answerable;
    DequeueIsStep(s);
  }

  lemma {:induction false} EntryOfTrade(symbol: Symbol, b: Book, item: WorkItem, j: nat)
    requires Valid(symbol, b) && SymbolOf(item) == symbol
    requires item.NewOrder? ==> item.order.qty >= 1 && !Present(b, item.order.id)
    requires var cs := Process(b, item).calls; j < |cs| && cs[j].OnFill?
    ensures item.NewOrder? || (item.ReplaceItem? && Lookup(b, item.replace.id).Some?)
    ensures var (b1, o) := Entering(b, item);
            var k := (if item.NewOrder? then 1 else 2) + j;
            && j < |Add(b1, o).trades| && k < |NewEntries(b, item)|
            && NewEntries(b, item)[k] == Traded(Add(b1, o).trades[j])
  {
    hide Valid, Present, Lookup, Process, Cancel, Killed, Insert;
    TradingStep(symbol, b, item, j);
    var (b1, o) := Entering(b, item);
    AddSweeps(b1, o);
  }

  lemma {:induction false} HonestAt(symbol: Symbol, b: Book, h: History, e: History, k: nat)
    requires Accounted(symbol, b, h + e) && k < |e| && e[k].Traded?
    ensures var t, upTo := e[k].trade, (h + e)[..|h| + k + 1];
            && t.maker.orderQty - t.maker.leaves == Cum(upTo, t.maker.id)
            && t.taker.orderQty - t.taker.leaves == Cum(upTo, t.taker.id)
  {
    hide Valid, InTime, Tracked, Balanced, Cum;
    assert (h + e)[|h| + k] == e[k];
  }

  // ---- The other callbacks of a step ----

  function FeedSide(side: Side): PacketSide {
    if side.Buy? then BidSide else AskSide
  }

  /** After the trades of a new order: if something of it rests, the feed gets it with what is left and
      the database a row; if it was cancelled for its time in force, its owner is told what it
      filled; and nothing else is sent. */
  lemma {:induction false} NewOrderIsSent(s: Sys, o: Order)
    requires Base(s) && Defined(s, Dequeue) && s.queue != [] && s.queue[0] == NewOrder(o)
    ensures var b := s.books[o.symbol];
            var cs, filled := Process(b, NewOrder(o)).calls, Min(o.qty, Reach(b, o));
            var killed := o.tif.Fok? && Promised(b, o) < o.qty;
            var ts := if killed then [] else Add(b, o).trades;
            var g := NotifyAll(s.gw, Fills(ts)).gw;
            var rests := o.tif.Gtc? && o.typ.Limit? && filled < o.qty;
            var cancelled := killed || (o.tif.Ioc? && filled < o.qty);
            var got := if killed then 0 else filled;
            && NotifyAll(s.gw, cs).packets
               == NotifyAll(s.gw, Fills(ts)).packets
                  + (if rests
                     then [Packet(NewOrderPkt, FeedSide(o.side), o.symbol, o.price, o.qty - filled, o.id)] else [])
            && NotifyAll(s.gw, cs).events
               == NotifyAll(s.gw, Fills(ts)).events + (if rests then [RestedEvt(o, o.qty - filled)] else [])
            && AllReports(s.gw, cs)
               == AllReports(s.gw, Fills(ts))
                  + (if cancelled && o.id in g.sessions
                     then [Execution(Canceled, o.id, o.qty, 0, got)] else [])
  {
    hide Base, BooksOk, Process, AllReports, NotifyAll, Add, Lookup, Valid, Shows, Keyed, Present, Reach, Promised,
         Answerable, TakerQty;
    var b := s.books[o.symbol];
    BaseParts(s);
    BookOf(s, o.symbol);
    FrontIsFresh(s);
    NewOrderFate(o.symbol, b, o);
    var killed := o.tif.Fok? && Promised(b, o) < o.qty;
    var fills := Fills(if killed then [] else Add(b, o).trades);
    LastIsSent(s.gw, fills, Process(b, NewOrder(o)).calls);
  }

  /** Callbacks and at most one more. */
  lemma {:induction false} LastIsSent(g: Gw, first: seq<Callback>, cs: seq<Callback>)
    requires first <= cs && |cs| <= |first| + 1
    ensures var x := NotifyAll(g, first);
            if cs == first then true
            else
              var last := cs[|first|];
              && NotifyAll(g, cs) == Out(Notify(x.gw, last).gw, x.packets + Notify(x.gw, last).packets,
                                       x.events + Notify(x.gw, last).events)
              && AllReports(g, cs) == AllReports(g, first) + Reports(x.gw, last)
  {
    hide Notify, Reports;
    if cs != first {
      assert cs == first + [cs[|first|]];
      NotifyAppend(g, first, [cs[|first|]]);
      NotifyOne(NotifyAll(g, first).gw, cs[|first|]);
      ReportsAppend(g, first, cs[|first|]);
    }
  }

  /** A cancel of a resting order that has a session: the feed gets its removal with its price, the
      database the event, its owner one report. Of any other cancel nothing is sent. */
  lemma {:induction false} CancelIsSent(s: Sys, c: CancelReq)
    requires Base(s) && Recorded(s, true) && c.symbol in s.books
    ensures var b := s.books[c.symbol];
            var cs := Process(b, CancelItem(c)).calls;
            var out := NotifyAll(s.gw, cs);
            match Lookup(b, c.id)
            case Some(o) =>
              if s.gw.Knows(c.id) then
                && out.packets == [Packet(CancelPkt, FeedSide(o.side), o.symbol, o.price, 0, c.id)]
                && out.events == [CancelEvt(c.id)]
                && AllReports(s.gw, cs)
                   == [Execution(Canceled, c.id, s.gw.active[c.id].qty, s.gw.active[c.id].qty, 0)]
              else out.packets == [] && out.events == [] && AllReports(s.gw, cs) == []
            case None => out.packets == [] && out.events == [] && AllReports(s.gw, cs) == []
  {
    hide Base, BooksOk, AllReports, NotifyAll, Lookup, Valid, Shows, Keyed, Present, Cancel, Recorded;
    var b := s.books[c.symbol];
    BaseParts(s);
    BookOf(s, c.symbol);
    LookupFinds(c.symbol, b, c.id);
    FitsPresence(s.view, c.symbol, b, c.id);
    var call := OnCancel(c, Present(b, c.id));
    NothingSent(s.gw);
    LastIsSent(s.gw, [], [call]);
    if c.id in s.view {
      RecordOf(s, c.id);
    }
  }

  lemma {:induction false} NothingSent(g: Gw)
    ensures NotifyAll(g, []) == Out(g, [], []) && AllReports(g, []) == []
  {
  }

  /** Fills change no price in the gateway's records. */
  lemma {:induction false} FillsKeepPrices(g: Gw, ts: seq<Trade>, id: Id)
    ensures var g' := NotifyAll(g, Fills(ts)).gw;
            id in g'.active ==> id in g.active && g'.active[id] == g.active[id].(leaves := g'.active[id].leaves)
    decreases |ts|
  {
    if ts == [] {
      assert Fills(ts) == [];
    } else {
      FillsCons(ts[0], ts[1..]);
      assert [ts[0]] + ts[1..] == ts;
      FillKeepsPrice(g, ts[0], id);
      hide Notify;
      FillsKeepPrices(Notify(g, OnFill(ts[0])).gw, ts[1..], id);
    }
  }

  lemma {:induction false} FillKeepsPrice(g: Gw, t: Trade, id: Id)
    ensures var g' := Notify(g, OnFill(t)).gw;
            id in g'.active ==> id in g.active && g'.active[id] == g.active[id].(leaves := g'.active[id].leaves)
  {
  }

  /** After the trades of a replace of a resting order, if it still has a session: less than nothing
      asked for is rejected; otherwise the feed gets one packet if the price stays, and else a
      removal at the old price and an entry at the new one, each with what is left; the
      database gets the event, and the owner one report. Without a session nothing is sent. */
  lemma {:induction false} ReplaceIsSent(s: Sys, q: ReplaceReq, o: Order)
    requires Base(s) && Recorded(s, true) && q.symbol in s.books && Lookup(s.books[q.symbol], q.id) == Some(o)
    ensures var b := s.books[q.symbol];
            var r, cs := Replace(b, q.id, q.price, q.qty), Process(b, ReplaceItem(q)).calls;
            var x := NotifyAll(s.gw, Fills(r.trades));
            var known, side := x.gw.Knows(q.id), FeedSide(q.side);
            && NotifyAll(s.gw, cs).packets
               == x.packets
                  + (if !known || r.leaves < 0 then []
                     else if q.price == o.price
                     then [Packet(ReplaceInPlacePkt, side, q.symbol, q.price, r.leaves, q.id)]
                     else [Packet(ReplaceDeletePkt, side, q.symbol, o.price, 0, q.id),
                           Packet(ReplaceNewPkt, side, q.symbol, q.price, r.leaves, q.id)])
            && NotifyAll(s.gw, cs).events
               == x.events + (if !known || r.leaves < 0 then [] else [ReplaceEvt(q, r.leaves)])
            && AllReports(s.gw, cs)
               == AllReports(s.gw, Fills(r.trades))
                  + (if !known then [] else if r.leaves < 0 then [CancelReject(q.id)]
                     else [Execution(Replaced, q.id, q.qty, q.qty, 0)])
  {
    hide Base, BooksOk, AllReports, NotifyAll, Lookup, Valid, Shows, Keyed, Present, Replace, Recorded;
    var b := s.books[q.symbol];
    BaseParts(s);
    BookOf(s, q.symbol);
    LookupFinds(q.symbol, b, q.id);
    FitsPresence(s.view, q.symbol, b, q.id);
    RecordOf(s, q.id);
    var r := Replace(b, q.id, q.price, q.qty);
    FillsKeepPrices(s.gw, r.trades, q.id);
    LastIsSent(s.gw, Fills(r.trades), Process(b, ReplaceItem(q)).calls);
  }
}
