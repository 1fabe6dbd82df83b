/** What holds of the exchange and its derived copies after every run. */
module Theorems {
  import opened Options
  import opened Orders
  import opened Books
  import opened Ledger
  import opened Engine
  import opened Views
  import opened MessageFactory
  import opened Gateway
  import opened Publishing
  import opened Leftovers
  import opened Agreement
  import opened Announcing
  import opened Touching
  import opened Mirror
  import opened MirrorServer
  import opened Persistence
  import opened Requests
  import opened System
  import opened Crashes
  import opened Recovery

  // ---- Starting empty ----

  function Start(symbols: set<Symbol>): Sys {
    Sys(EmptyBooks(symbols), map s | s in symbols :: [], Gw(map[], map[], 0), [],
        map[], [], State(map[], map[]), [], map[], map[], {}, map[], {})
  }

  lemma {:induction false} StartFields(symbols: set<Symbol>)
    ensures var s := Start(symbols);
            && s.books == EmptyBooks(symbols) && s.books.Keys == symbols && s.ledgers.Keys == symbols
            && s.gw == Gw(map[], map[], 0) && s.queue == [] && s.table0 == map[] && s.log == []
            && s.ui0 == State(map[], map[]) && s.feed == [] && s.view == map[] && s.kept == map[] && s.dropped == {}
            && s.ghosts == map[] && s.blanks == {} && (forall sym :: sym in symbols ==> s.ledgers[sym] == [])
  {
  }

  lemma {:induction false} StartInv(symbols: set<Symbol>)
    ensures Inv(Start(symbols)) && Bound(Start(symbols).gw) && AllCutsSafe(Start(symbols))
  {
    hide Start, Accounted, Agree, Consistent, Recovered;
    var s := Start(symbols);
    StartFields(symbols);
    forall sym | sym in s.books
      ensures Accounted(sym, s.books[sym], s.ledgers[sym]) && Valid(sym, s.books[sym])
    {
      EmptyIsAccounted(sym);
    }
    NothingYet();
    assert s.view + s.ghosts == map[];
    assert Strip(s.Ui(), {}) == s.Ui();
    assert s.log[..0] == [];
  }

  lemma {:induction false} NothingYet()
    ensures Agree(Gw(map[], map[], 0), map[], map[]) && Consistent(State(map[], map[])) && Recovered(map[]) == map[]
  {
  }

  lemma {:induction false} RunInv(symbols: set<Symbol>, run: seq<Action>)
    requires AllDefined(Start(symbols), run)
    ensures Inv(Exec(Start(symbols), run)) && AllProper(Start(symbols), run)
  {
    hide Base, GatewayOk, TableOk, UiOk, Start, Exec, AllDefined, AllProper, Bound;
    StartInv(symbols);
    BoundIsProper(Start(symbols), run);
    ExecKeepsInv(Start(symbols), run);
  }

  lemma {:induction false} InvParts(s: Sys)
    requires Inv(s)
    ensures Base(s) && GatewayOk(s) && Published(s) && UiOk(s) && BooksOk(s) && s.ledgers.Keys == s.books.Keys
  {
    hide Base, GatewayOk, UiOk, Published;
    InvIsPublished(s);
    BaseParts(s);
  }

  lemma {:induction false} BookOf(s: Sys, sym: Symbol)
    requires BooksOk(s) && sym in s.books
    ensures sym in s.ledgers && Accounted(sym, s.books[sym], s.ledgers[sym])
    ensures Valid(sym, s.books[sym]) && Fits(s.view, sym, s.books[sym]) && Keyed(s.view)
  {
    hide Valid, Shows, Keyed;
    AllFitKeyed(s.view, s.books, sym);
  }

  // ---- The gateway ----

  /** The order rests in the book of this symbol. */
  predicate IsResting(s: Sys, sym: Symbol, id: Id) {
    sym in s.books && Present(s.books[sym], id)
  }

  /** The gateway has a record of exactly the resting orders, the queued ones and the dropped
      remainders; and for a resting order its record is the order in the book, down to
      price, quantity and leaves. */
  ghost predicate GatewayMatches(s: Sys) {
    && (forall sym, id :: IsResting(s, sym, id) ==>
          id in s.gw.active && Lookup(s.books[sym], id) == Some(s.gw.active[id]))
    && (forall id :: id in s.gw.active <==>
          id in s.dropped || Queued(s.queue, id) || exists sym :: IsResting(s, sym, id))
  }

  /** The set of resting orders and the books say the same. */
  lemma {:induction false} ViewIsBooks(s: Sys)
    requires BooksOk(s)
    ensures forall sym, id :: IsResting(s, sym, id) ==>
              id in s.view && s.view[id].symbol == sym && Lookup(s.books[sym], id) == Some(s.view[id])
    ensures forall id :: id in s.view ==> IsResting(s, s.view[id].symbol, id)
  {
    hide Accounted, Lookup, AllFit, Valid, Shows, Keyed, Present;
    forall sym, id | IsResting(s, sym, id)
      ensures id in s.view && s.view[id].symbol == sym && Lookup(s.books[sym], id) == Some(s.view[id])
    {
      AllFitKeyed(s.view, s.books, sym);
      FitsPresence(s.view, sym, s.books[sym], id);
    }
    forall id | id in s.view
      ensures IsResting(s, s.view[id].symbol, id)
    {
      AllFitKeyed(s.view, s.books, s.view[id].symbol);
      FitsPresence(s.view, s.view[id].symbol, s.books[s.view[id].symbol], id);
    }
  }

  lemma {:induction false} KeptAre(s: Sys)
    requires QueueOk(s)
    ensures forall id :: id in s.kept <==> id in s.dropped || Queued(s.queue, id)
  {
    forall id | Queued(s.queue, id)
      ensures id in s.kept
    {
      var i :| 0 <= i < |s.queue| && s.queue[i].NewOrder? && s.queue[i].order.id == id;
      QueuedIsKept(s, i);
    }
  }

  lemma {:induction false} KnownOrders(s: Sys)
    requires GatewayOk(s)
    ensures forall id :: id in s.gw.active <==> id in s.view || id in s.kept
    ensures forall id :: id in s.view ==> s.gw.active[id] == s.view[id] && id !in s.kept
    ensures s.gw.sessions.Keys <= s.gw.active.Keys
  {
    assert s.gw.active == s.view + s.kept;
  }

  lemma {:induction false} RecordsMatch(s: Sys)
    requires Base(s) && GatewayOk(s)
    ensures GatewayMatches(s)
  {
    hide Base, BooksOk, GatewayOk, QueueOk, Queued, IsResting, Lookup;
    BaseParts(s);
    ViewIsBooks(s);
    KeptAre(s);
    KnownOrders(s);
  }

  /** In every run the gateway agrees with the books, replaces that fill at once included, and
      has a session for every order it has a record of. */
  lemma {:induction false} GatewayAgreesInEveryRun(symbols: set<Symbol>, run: seq<Action>)
    requires AllDefined(Start(symbols), run)
    ensures GatewayMatches(Exec(Start(symbols), run)) && Bound(Exec(Start(symbols), run).gw)
  {
    hide Inv, GatewayMatches, Bound, Start, AllDefined;
    StartInv(symbols);
    RunInv(symbols, run);
    InvParts(Exec(Start(symbols), run));
    RecordsMatch(Exec(Start(symbols), run));
    RunKeepsBound(Start(symbols), run);
  }

  lemma {:induction false} RunKeepsBound(s: Sys, run: seq<Action>)
    requires Bound(s.gw)
    ensures Bound(Exec(s, run).gw)
    decreases |run|
  {
    hide Next, Bound;
    if run != [] {
      NextKeepsBound(s, run[0]);
      RunKeepsBound(Next(s, run[0]), run[1..]);
    }
  }

  /** A resting order's status report is right: its LeavesQty is what rests, and its CumQty,
      order quantity minus leaves, is what the order has traded since it last entered or was
      resized. */
  lemma {:induction false} ReportsCumulate(s: Sys, sym: Symbol, id: Id)
    requires Base(s) && GatewayOk(s) && IsResting(s, sym, id)
    ensures id in s.gw.active && sym in s.ledgers && Lookup(s.books[sym], id).Some?
    ensures var r := StatusReport(s.gw.active[id]);
            var o := Lookup(s.books[sym], id).value;
            r == Execution(OrderStatus, id, o.qty, o.leaves, Cum(s.ledgers[sym], id))
  {
    hide Base, BooksOk, GatewayOk, GatewayMatches, Cum, Accounted, Present, Lookup;
    BaseParts(s);
    BookOf(s, sym);
    LookupFinds(sym, s.books[sym], id);
    RecordOfResting(s, sym, id);
    TrackedOrder(sym, s.books[sym], s.ledgers[sym], id);
  }

  /** A cancel report claims the whole order as open, never zero, though nothing of it rests any
      more, and nothing as traded. It gives what was left, and what was traded, exactly if the
      order had not traded. */
  lemma {:induction false} CancelReportIff(s: Sys, sym: Symbol, id: Id)
    requires Base(s) && GatewayOk(s) && IsResting(s, sym, id) && id in s.gw.sessions
    ensures sym in s.ledgers && Lookup(s.books[sym], id).Some?
    ensures var c := CancelItem(CancelReq(id, sym));
            var step := Process(s.books[sym], c);
            var rs := AllReports(s.gw, step.calls);
            && !Present(step.book, id)
            && |rs| == 1 && rs[0].Execution? && rs[0].exec.Canceled? && rs[0].id == id
            && rs[0].leaves > 0
            && (rs[0].leaves == Lookup(s.books[sym], id).value.leaves <==> Cum(s.ledgers[sym], id) == 0)
            && (rs[0].cum == Cum(s.ledgers[sym], id) <==> Cum(s.ledgers[sym], id) == 0)
  {
    hide Base, BooksOk, GatewayOk, GatewayMatches, Cum, Accounted, Present, Lookup, Valid, Cancel;
    BaseParts(s);
    BookOf(s, sym);
    var b, c := s.books[sym], CancelReq(id, sym);
    LookupFinds(sym, b, id);
    RecordOfResting(s, sym, id);
    TrackedOrder(sym, b, s.ledgers[sym], id);
    CancelKeepsValid(sym, b, id);
    ReportsAppend(s.gw, [], OnCancel(c, true));
    assert [] + [OnCancel(c, true)] == [OnCancel(c, true)];
  }

  lemma {:induction false} RecordOfResting(s: Sys, sym: Symbol, id: Id)
    requires Base(s) && GatewayOk(s) && IsResting(s, sym, id)
    ensures id in s.gw.active && Lookup(s.books[sym], id) == Some(s.gw.active[id])
  {
    hide Base, GatewayOk, Lookup, Present;
    RecordsMatch(s);
  }

  lemma {:induction false} TrackedOrder(sym: Symbol, b: Book, h: History, id: Id)
    requires Accounted(sym, b, h) && Lookup(b, id).Some?
    ensures Lookup(b, id).value.qty - Lookup(b, id).value.leaves == Cum(h, id)
  {
    hide Cum;
    LookupFinds(sym, b, id);
    var o := Lookup(b, id).value;
    assert Tracked(b.On(o.side), h);
  }

  // ---- Exactly when the gateway agrees ----

  ghost predicate AlwaysMatches(s: Sys, run: seq<Action>)
    decreases |run|
  {
    GatewayMatches(s) && (run == [] || AlwaysMatches(Next(s, run[0]), run[1..]))
  }

  /** From any state in agreement, a restart with nobody logged on included: the gateway's
      records agree with the books throughout the run if and only if no step fills, cancels
      or replaces an order without a session, and none replaces a resting order by less than
      one unit, unless by nothing at another price. */
  lemma {:induction false} GatewayAgreesThroughoutIff(s: Sys, run: seq<Action>)
    requires Base(s) && GatewayOk(s) && AllRegistered(s, run)
    ensures AlwaysMatches(s, run) <==> AllProper(s, run)
    decreases |run|
  {
    hide Base, GatewayOk, Next, Proper, Defined, Registered, GatewayMatches;
    RecordsMatch(s);
    if run != [] {
      if Proper(s, run[0]) {
        ProperIsDefined(s, run[0]);
        NextKeepsBase(s, run[0]);
        NextKeepsGateway(s, run[0]);
        GatewayAgreesThroughoutIff(Next(s, run[0]), run[1..]);
      } else {
        ImproperBreaks(s, run[0]);
        assert !AlwaysMatches(Next(s, run[0]), run[1..]);
      }
    }
  }

  lemma {:induction false} ProperIsDefined(s: Sys, a: Action)
    requires Proper(s, a)
    ensures Defined(s, a)
  {
    hide Untouched;
  }

  lemma {:induction false} ImproperBreaks(s: Sys, a: Action)
    requires Base(s) && GatewayOk(s) && Registered(s, a) && !Proper(s, a)
    ensures !GatewayMatches(Next(s, a))
  {
    hide Base, BooksOk, GatewayOk, QueueOk, GatewayMatches, Stepped, Untouched, Answerable, Next;
    var item := s.queue[0];
    BaseParts(s);
    NextIs(s, Dequeue);
    if Answerable(s.books[SymbolOf(item)], item) {
      TouchBreaks(s, item);
    } else {
      BelowOneBreaks(s, item);
    }
  }

  /** A record that no book bears out. */
  lemma {:induction false} RecordBreaks(s: Sys, id: Id)
    requires id in s.gw.active && id !in s.dropped && !Queued(s.queue, id)
    requires forall sym :: IsResting(s, sym, id) ==> Lookup(s.books[sym], id) != Some(s.gw.active[id])
    ensures !GatewayMatches(s)
  {
    hide Lookup, Queued, IsResting;
    assert GatewayMatches(s) ==> exists sym :: IsResting(s, sym, id);
  }

  /** A resting order is neither queued nor dropped, before the step and after it. */
  lemma {:induction false} NotWaiting(s: Sys, id: Id)
    requires Base(s) && s.queue != [] && id in s.view
    requires SymbolOf(s.queue[0]) in s.books && SymbolOf(s.queue[0]) in s.ledgers
    ensures var s' := Stepped(s.(queue := s.queue[1..]), s.queue[0]); id !in s'.dropped && !Queued(s'.queue, id)
  {
    hide Base, BooksOk, OrdersOk, Recorded, Stepped, QueueOk, Queued;
    BaseParts(s);
    KeptAre(s);
    if s.queue[0].NewOrder? {
      QueuedIsKept(s, 0);
    }
    QueuedBehind(s.queue, id);
    SteppedDropped(s.(queue := s.queue[1..]), s.queue[0]);
  }

  lemma {:induction false} SteppedDropped(s: Sys, item: WorkItem)
    requires SymbolOf(item) in s.books && SymbolOf(item) in s.ledgers
    ensures Stepped(s, item).queue == s.queue
    ensures forall id :: id in Stepped(s, item).dropped ==> id in s.dropped || (item.NewOrder? && id == item.order.id)
  {
    hide Process, NotifyAll, Effects, KeptAfter, GhostsAfter, BlanksAfter, NewEntries, Drops;
  }

  lemma {:induction false} QueuedBehind(queue: seq<WorkItem>, id: Id)
    requires queue != []
    ensures Queued(queue[1..], id) ==> Queued(queue, id)
  {
    if Queued(queue[1..], id) {
      var i :| 0 <= i < |queue[1..]| && queue[1..][i].NewOrder? && queue[1..][i].order.id == id;
      assert queue[i + 1] == queue[1..][i];
    }
  }

  lemma {:induction false} TouchBreaks(s: Sys, item: WorkItem)
    requires Base(s) && GatewayOk(s) && s.queue != [] && item == s.queue[0]
    requires Defined(s, Dequeue) && SymbolOf(item) in s.ledgers
    requires !Untouched(s.gw, s.books[SymbolOf(item)], item)
    ensures !GatewayMatches(Stepped(s.(queue := s.queue[1..]), item))
  {
    hide Base, BooksOk, GatewayOk, OrdersOk, Untouched, GatewayMatches, Process, Effects, Changed, Valid, Shows, Keyed,
         Acceptable, Due, Stepped, Answerable;
    var sym := SymbolOf(item);
    BaseParts(s);
    FrontIsDue(s);
    DueIsAcceptable(s, item);
    var id := TouchedChanges(s.gw, s.view, sym, s.books[sym], item);
    DequeueIsStep(s);
    StepBooks(s.(queue := s.queue[1..]), item);
    StaleBreaks(s, item, id);
  }

  lemma {:induction false} StaleBreaks(s: Sys, item: WorkItem, id: Id)
    requires Base(s) && GatewayOk(s) && s.queue != [] && item == s.queue[0]
    requires SymbolOf(item) in s.books && SymbolOf(item) in s.ledgers
    requires BooksOk(Stepped(s.(queue := s.queue[1..]), item)) && id !in s.gw.sessions
    requires Changed(s.view, Effects(s.view, Process(s.books[SymbolOf(item)], item).calls), id)
    ensures !GatewayMatches(Stepped(s.(queue := s.queue[1..]), item))
  {
    hide Base, BooksOk, GatewayOk, GatewayMatches, Process, NotifyAll, Effects, Queued,
         KeptAfter, GhostsAfter, BlanksAfter, NewEntries, Drops, Lookup, IsResting;
    var s' := Stepped(s.(queue := s.queue[1..]), item);
    KnownOrders(s);
    UnboundFrozen(s.gw, Process(s.books[SymbolOf(item)], item).calls, id);
    NotWaiting(s, id);
    ViewIsBooks(s');
    RecordBreaks(s', id);
  }

  lemma {:induction false} BelowOneBreaks(s: Sys, item: WorkItem)
    requires Base(s) && GatewayOk(s) && s.queue != [] && item == s.queue[0]
    requires SymbolOf(item) in s.books && SymbolOf(item) in s.ledgers && !Answerable(s.books[SymbolOf(item)], item)
    ensures !GatewayMatches(Stepped(s.(queue := s.queue[1..]), item))
  {
    hide Base, BooksOk, GatewayOk, GatewayMatches, Queued, Cancel, Present, Lookup, Valid, Add, Stepped;
    var q, sym := item.replace, SymbolOf(item);
    var b, s' := s.books[sym], Stepped(s.(queue := s.queue[1..]), item);
    BaseParts(s);
    ViewIsBooks(s);
    KnownOrders(s);
    assert Valid(sym, b) by { BookOf(s, sym); }
    LookupFinds(sym, b, q.id);
    assert IsResting(s, sym, q.id);
    var o := s.view[q.id];
    NotWaiting(s, q.id);
    if InPlace(o, q.price, q.qty) {
      EditedBreaks(s, item, q, o);
    } else {
      NoReentry(sym, b, o, q);
      RemovedBreaks(s, item, q, o);
    }
  }

  lemma {:induction false} SteppedOne(s: Sys, item: WorkItem, b': Book, call: Callback)
    requires SymbolOf(item) in s.books && SymbolOf(item) in s.ledgers
    requires Process(s.books[SymbolOf(item)], item) == Step(b', [call])
    ensures var s' := Stepped(s, item); s'.books == s.books[SymbolOf(item) := b'] && s'.gw == Notify(s.gw, call).gw
  {
    hide Process, NotifyAll, Effects, KeptAfter, GhostsAfter, BlanksAfter, NewEntries, Drops, Notify;
    NotifyOne(s.gw, call);
  }

  /** An order edited in place down to nothing rests with a quantity the gateway does not have. */
  lemma {:induction false} EditedBreaks(s: Sys, item: WorkItem, q: ReplaceReq, o: Order)
    requires item == ReplaceItem(q) && q.symbol in s.books && q.symbol in s.ledgers && s.queue != []
    requires Valid(q.symbol, s.books[q.symbol]) && Lookup(s.books[q.symbol], q.id) == Some(o) && o.id == q.id
    requires InPlace(o, q.price, q.qty) && q.qty < 1 && o.leaves > 0
    requires q.id in s.gw.active && s.gw.active[q.id] == o
    ensures !GatewayMatches(Stepped(s.(queue := s.queue[1..]), item))
  {
    hide Valid, Lookup, Present, Stepped, GatewayMatches, Find;
    var b, s1 := s.books[q.symbol], s.(queue := s.queue[1..]);
    var b', call := Book(Resize(b.bids, q.id, q.qty), Resize(b.asks, q.id, q.qty)), OnReplace(q, q.qty >= 0, q.qty);
    assert Process(b, item) == Step(b', [call]) by { assert Fills([]) == []; }
    SteppedOne(s1, item, b', call);
    ResizedLookup(q.symbol, b, o, q.qty);
    FoundIsPresent(b', q.id);
    NotRecorded(Stepped(s1, item), q.symbol, q.id);
  }

  lemma {:induction false} FoundIsPresent(b: Book, id: Id)
    requires Lookup(b, id).Some?
    ensures Present(b, id)
  {
    assert Find(b.bids, id) < |b.bids| ==> Holds(b.bids, id);
    assert Find(b.asks, id) < |b.asks| ==> Holds(b.asks, id);
  }

  /** A resting order whose record is missing or different. */
  lemma {:induction false} NotRecorded(s: Sys, sym: Symbol, id: Id)
    requires IsResting(s, sym, id)
    requires id in s.gw.active ==> Lookup(s.books[sym], id) != Some(s.gw.active[id])
    ensures !GatewayMatches(s)
  {
    hide Lookup, Queued;
  }

  /** An order that left the book unannounced keeps its record. */
  lemma {:induction false} RemovedBreaks(s: Sys, item: WorkItem, q: ReplaceReq, o: Order)
    requires item == ReplaceItem(q) && q.symbol in s.books && q.symbol in s.ledgers && s.queue != [] && BooksOk(s)
    requires q.id in s.view && s.view[q.id].symbol == q.symbol && q.id in s.gw.active && q.qty < 0
    requires var r := Replace(s.books[q.symbol], q.id, q.price, q.qty);
             r == Outcome(Cancel(s.books[q.symbol], q.id), q.qty, []) && !Present(r.book, q.id)
    requires var s' := Stepped(s.(queue := s.queue[1..]), item); q.id !in s'.dropped && !Queued(s'.queue, q.id)
    ensures !GatewayMatches(Stepped(s.(queue := s.queue[1..]), item))
  {
    hide BooksOk, Lookup, Present, Stepped, GatewayMatches, Cancel, Replace, Queued;
    var b, s1 := s.books[q.symbol], s.(queue := s.queue[1..]);
    var b', call := Cancel(b, q.id), OnReplace(q, false, q.qty);
    assert Process(b, item) == Step(b', [call]) by { assert Fills([]) == []; }
    SteppedOne(s1, item, b', call);
    ViewIsBooks(s);
    var s' := Stepped(s1, item);
    assert forall sym :: IsResting(s', sym, q.id) ==> sym != q.symbol && IsResting(s, sym, q.id);
    RecordBreaks(s', q.id);
  }

  // ---- When the published copies part from the book ----

  /** A dequeued replace whose re-entry is filled at once: the one step nobody is told about. */
  predicate SilentFill(s: Sys, a: Action) {
    && a.Dequeue? && s.queue != [] && s.queue[0].ReplaceItem?
    && SymbolOf(s.queue[0]) in s.books
    && FillsOnReentry(s.books[SymbolOf(s.queue[0])], s.queue[0].replace)
  }

  /** No replace of the run is filled on re-entry. */
  predicate Quiet(s: Sys, run: seq<Action>)
    decreases |run|
  {
    run == [] || (!SilentFill(s, run[0]) && Quiet(Next(s, run[0]), run[1..]))
  }

  /** A dequeued replace to nothing at another price, which takes its order out of the book. */
  predicate Empties(s: Sys, a: Action) {
    && a.Dequeue? && s.queue != [] && s.queue[0].ReplaceItem?
    && SymbolOf(s.queue[0]) in s.books
    && Zeroes(s.books[SymbolOf(s.queue[0])], s.queue[0].replace)
  }

  predicate NoneEmptied(s: Sys, run: seq<Action>)
    decreases |run|
  {
    run == [] || (!Empties(s, run[0]) && NoneEmptied(Next(s, run[0]), run[1..]))
  }

  /** Ghosts and blanks are made by such steps only, and never go away. */
  lemma {:induction false} HistoryStep(s: Sys, a: Action)
    requires Base(s)
    ensures Next(s, a).ghosts == map[] <==> s.ghosts == map[] && !SilentFill(s, a)
    ensures Next(s, a).blanks == {} <==> s.blanks == {} && !Empties(s, a)
    ensures forall id :: id in s.ghosts ==> id in Next(s, a).ghosts && Next(s, a).ghosts[id] == s.ghosts[id]
  {
    hide Base, FillsOnReentry, Zeroes, Next;
    if a.Dequeue? && s.queue != [] && SymbolOf(s.queue[0]) in s.books {
      HistoryDequeue(s);
    } else {
      NoHistory(s, a);
    }
  }

  lemma {:induction false} NoHistory(s: Sys, a: Action)
    requires !(a.Dequeue? && s.queue != [] && SymbolOf(s.queue[0]) in s.books)
    ensures Next(s, a).ghosts == s.ghosts && Next(s, a).blanks == s.blanks
  {
    hide Next, Stepped;
    NextFrame(s, a);
    if a.Dequeue? && s.queue != [] {
      NextIs(s, Dequeue);
    }
  }

  lemma {:induction false} HistoryDequeue(s: Sys)
    requires Base(s) && s.queue != [] && SymbolOf(s.queue[0]) in s.books
    ensures var s' := Next(s, Dequeue);
            && (s'.ghosts == map[] <==> s.ghosts == map[] && !SilentFill(s, Dequeue))
            && (s'.blanks == {} <==> s.blanks == {} && !Empties(s, Dequeue))
            && (forall id :: id in s.ghosts ==> id in s'.ghosts && s'.ghosts[id] == s.ghosts[id])
  {
    hide Base, BooksOk, OrdersOk, Process, NotifyAll, Effects, KeptAfter, NewEntries, Drops, FillsOnReentry, Zeroes,
         AllPositive, Keyed;
    var item, s1, s' := s.queue[0], s.(queue := s.queue[1..]), Next(s, Dequeue);
    var b := s.books[SymbolOf(item)];
    BaseParts(s);
    OnlyQueue(s, s1);
    assert s' == Stepped(s1, item);
    GhostsAfterGood(s1, item);
    if item.ReplaceItem? && FillsOnReentry(b, item.replace) {
      FillingIsPresent(s, item.replace);
      assert item.replace.id in s'.ghosts;
    }
    if item.ReplaceItem? && Zeroes(b, item.replace) {
      assert item.replace.id in s'.blanks;
    }
  }

  lemma {:induction false} FillingIsPresent(s: Sys, q: ReplaceReq)
    requires BooksOk(s) && q.symbol in s.books && FillsOnReentry(s.books[q.symbol], q)
    ensures q.id in s.view
  {
    hide BooksOk, Valid, Present;
    assert Lookup(s.books[q.symbol], q.id).Some?;
    hide Lookup, FillsOnReentry;
    BookOf(s, q.symbol);
    LookupFinds(q.symbol, s.books[q.symbol], q.id);
    assert IsResting(s, q.symbol, q.id);
    ViewIsBooks(s);
  }

  /** Published orders that no longer rest appear exactly in runs with a replace filled on
      re-entry, and entries without quantity exactly in runs with a replace to nothing at
      another price. */
  lemma {:induction false} GhostsIffSilent(s: Sys, run: seq<Action>)
    requires Base(s) && AllDefined(s, run)
    ensures Exec(s, run).ghosts == map[] <==> s.ghosts == map[] && Quiet(s, run)
    ensures Exec(s, run).blanks == {} <==> s.blanks == {} && NoneEmptied(s, run)
    decreases |run|
  {
    hide Base, Next, SilentFill, Empties, Defined;
    if run != [] {
      HistoryStep(s, run[0]);
      NextKeepsBase(s, run[0]);
      GhostsIffSilent(Next(s, run[0]), run[1..]);
    }
  }

  /** And once there, such an order stays in the table for ever, as it was, and in the mirror. */
  lemma {:induction false} GhostsStay(s: Sys, run: seq<Action>, id: Id)
    requires Published(s) && AllTold(s, run) && id in s.ghosts
    ensures var e := Exec(s, run);
            && id in e.ghosts && e.ghosts[id] == s.ghosts[id]
            && id in e.Table() && e.Table()[id] == RowOf(s.ghosts[id])
            && (UiOk(s) ==> id in e.Ui().orders && e.Ui().orders[id] == MdOf(s.ghosts[id]))
    decreases |run|
  {
    hide Base, Recorded, TableOk, UiOk, Next, Told;
    if run == [] {
      GhostIsPublished(s, id);
    } else {
      HistoryStep(s, run[0]);
      NextKeepsPublished(s, run[0]);
      GhostsStay(Next(s, run[0]), run[1..], id);
    }
  }

  lemma {:induction false} GhostIsPublished(s: Sys, id: Id)
    requires Base(s) && id in s.ghosts
    ensures TableOk(s) ==> id in s.Table() && s.Table()[id] == RowOf(s.ghosts[id])
    ensures UiOk(s) ==> id in s.Ui().orders && s.Ui().orders[id] == MdOf(s.ghosts[id])
    ensures s.view.Keys !! s.ghosts.Keys && s.ghosts[id].symbol in s.books
  {
    hide BooksOk, QueueOk, Recorded, Consistent, AllPositive, Keyed;
    var p := s.view + s.ghosts;
    assert p[id] == s.ghosts[id];
    assert UiOk(s) ==> Strip(s.Ui(), s.blanks).orders == Md(p) && id in Md(p);
  }

  // ---- The database ----

  /** The table holds the resting orders of all books and nothing else. */
  ghost predicate TableMatches(t: Table, books: BookMap) {
    && (forall sym :: sym in books ==> TableShows(t, sym, books[sym]))
    && (forall id :: id in t ==> t[id].symbol in books)
  }

  lemma {:induction false} TableHolds(s: Sys)
    requires Base(s) && TableOk(s)
    ensures TableMatches(s.Table(), s.books) <==> s.ghosts == map[]
  {
    hide Base, BooksOk, TableOk, TableShows, Rows;
    if s.ghosts != map[] {
      var id :| id in s.ghosts;
      GhostNotShown(s, id);
    } else {
      BaseParts(s);
      TableIsView(s);
      forall sym | sym in s.books
        ensures TableShows(s.Table(), sym, s.books[sym])
      {
        BookOf(s, sym);
        RowsShow(s.view, sym, s.books[sym]);
      }
    }
  }

  lemma {:induction false} TableIsView(s: Sys)
    requires BooksOk(s) && s.ghosts == map[]
    ensures TableOk(s) ==> s.Table() == Rows(s.view) && forall id :: id in s.Table() ==> s.Table()[id].symbol in s.books
    ensures UiOk(s) && s.blanks == {} ==>
              Mirrors(s.Ui(), s.view) && forall id :: id in s.Ui().orders ==> s.Ui().orders[id].symbol in s.books
  {
    hide Accounted, AllFit, Consistent;
    assert s.view + s.ghosts == s.view;
    assert Strip(s.Ui(), {}) == s.Ui();
  }

  lemma {:induction false} GhostNotShown(s: Sys, id: Id)
    requires Base(s) && id in s.ghosts
    ensures TableOk(s) ==> !TableMatches(s.Table(), s.books)
    ensures UiOk(s) ==> !UiMatches(s.Ui(), s.books)
  {
    hide Base, LevelShown, Lookup, TableOk, UiOk;
    GhostIsPublished(s, id);
    BaseParts(s);
    hide BooksOk;
    ViewIsBooks(s);
    var sym := s.ghosts[id].symbol;
    assert !IsResting(s, sym, id);
  }

  /** After any run, with all events flushed, the resting_orders table equals the live books
      if and only if no replace was filled on re-entry. */
  lemma {:induction false} TableAgreesIff(symbols: set<Symbol>, run: seq<Action>)
    requires AllDefined(Start(symbols), run)
    ensures var s := Exec(Start(symbols), run);
            TableMatches(s.Table(), s.books) <==> Quiet(Start(symbols), run)
  {
    hide Inv, Base, Recorded, TableOk, TableMatches, Quiet, AllDefined, AllProper, Start;
    StartInv(symbols);
    StartFields(symbols);
    InvParts(Start(symbols));
    RunInv(symbols, run);
    GhostsIffSilent(Start(symbols), run);
    InvParts(Exec(Start(symbols), run));
    TableHolds(Exec(Start(symbols), run));
  }

  ghost predicate AlwaysInTable(s: Sys, run: seq<Action>)
    decreases |run|
  {
    TableMatches(s.Table(), s.books) && (run == [] || AlwaysInTable(Next(s, run[0]), run[1..]))
  }

  predicate AllTabled(s: Sys, run: seq<Action>)
    decreases |run|
  {
    run == [] || (Told(s, run[0]) && !SilentFill(s, run[0]) && AllTabled(Next(s, run[0]), run[1..]))
  }

  /** From any state with published records and table, a restart with nobody logged on
      included: the table equals the books throughout the run if and only if it does so at
      the start, no step cancels or replaces an order without a session, unless by what
      already rests, none replaces a resting order by less than one unit, unless by nothing
      at another price, and no replace is filled on re-entry. */
  lemma {:induction false} TableAgreesThroughoutIff(s: Sys, run: seq<Action>)
    requires Published(s) && AllRegistered(s, run)
    ensures AlwaysInTable(s, run) <==> s.ghosts == map[] && AllTabled(s, run)
    decreases |run|
  {
    hide Base, Recorded, TableOk, UiOk, Next, Told, SilentFill, Registered, TableMatches;
    TableHolds(s);
    if run != [] && s.ghosts == map[] {
      if Told(s, run[0]) {
        NextKeepsPublished(s, run[0]);
        HistoryStep(s, run[0]);
        TableAgreesThroughoutIff(Next(s, run[0]), run[1..]);
      } else {
        UntoldBreaks(s, run[0]);
        assert !AlwaysInTable(Next(s, run[0]), run[1..]);
      }
    }
  }

  /** What the item finds and what it makes of book, table and mirror. */
  lemma {:induction false} DequeueSends(s: Sys)
    requires BooksOk(s) && s.queue != [] && SymbolOf(s.queue[0]) in s.books && s.ghosts == map[]
    ensures var s', item := Next(s, Dequeue), s.queue[0];
            var step := Process(s.books[SymbolOf(item)], item);
            var out := NotifyAll(s.gw, step.calls);
            && s'.books == s.books[SymbolOf(item) := step.book]
            && (TableOk(s) ==> s'.Table() == ApplyEvents(Rows(s.view), out.events))
            && s'.Ui() == ApplyMds(s.Ui(), out.packets)
  {
    hide BooksOk, Process, NotifyAll, Stepped, ApplyMds, ApplyEvents, Rows, Next;
    var s1, item := s.(queue := s.queue[1..]), s.queue[0];
    assert s.ledgers.Keys == s.books.Keys by { LedgerPerBook(s); }
    assert s.view + s.ghosts == s.view;
    NextIs(s, Dequeue);
    SteppedFrame(s1, item);
    var out := NotifyAll(s.gw, Process(s.books[SymbolOf(item)], item).calls);
    ApplyEventsAppend(s.table0, s.log, out.events);
    ApplyMdsAppend(s.ui0, s.feed, out.packets);
  }

  lemma {:induction false} LedgerPerBook(s: Sys)
    requires BooksOk(s)
    ensures s.ledgers.Keys == s.books.Keys
  {
  }

  lemma {:induction false} PositiveView(s: Sys)
    requires OrdersOk(s) && s.ghosts == map[]
    ensures AllPositive(s.view)
  {
    hide AllPositive, Keyed;
    assert s.view + s.ghosts == s.view;
  }

  /** A step that is not told parts the table from the book, and the mirror too, unless it puts
      the book itself out of order. */
  lemma {:induction false} UntoldBreaks(s: Sys, a: Action)
    requires Base(s) && Recorded(s, true) && s.ghosts == map[] && Registered(s, a) && !Told(s, a)
    ensures TableOk(s) ==> !TableMatches(Next(s, a).Table(), Next(s, a).books)
    ensures UiOk(s) && s.blanks == {} ==> !UiGood(Next(s, a))
  {
    hide Base, BooksOk, OrdersOk, QueueOk, Recorded, TableOk, UiOk, TableShows, MirrorShows, Process, NotifyAll, Next,
         Rows, ApplyEvents, ApplyMds, Mirrors, Valid, Shows, Keyed, Announced, Answerable, TableMatches, UiGood;
    BaseParts(s);
    DequeueSends(s);
    TableIsView(s);
    var item, s' := s.queue[0], Next(s, Dequeue);
    var b, sym := s.books[SymbolOf(item)], SymbolOf(item);
    var step := Process(b, item);
    var out := NotifyAll(s.gw, step.calls);
    NewIsTold(s.gw, b, item);
    match item {
      case NewOrder(_) =>
      case CancelItem(c) => UntoldCancel(s, c);
      case ReplaceItem(q) => UntoldReplace(s, q);
    }
    assert !TableShows(ApplyEvents(Rows(s.view), out.events), sym, step.book);
    assert s'.books[sym] == step.book;
    NotMatched(s', sym);
  }

  /** One book that table or mirror does not show. */
  lemma {:induction false} NotMatched(s: Sys, sym: Symbol)
    requires sym in s.books
    ensures !TableShows(s.Table(), sym, s.books[sym]) ==> !TableMatches(s.Table(), s.books)
    ensures !Valid(sym, s.books[sym]) || !MirrorShows(s.Ui(), sym, s.books[sym]) ==> !UiGood(s)
  {
    hide TableShows, MirrorShows, Valid;
  }

  lemma {:induction false} NewIsTold(g: Gw, b: Book, item: WorkItem)
    ensures item.NewOrder? ==> Answerable(b, item) && Announced(g, b, item)
    ensures item.CancelItem? ==> Answerable(b, item)
  {
  }

  lemma {:induction false} UntoldCancel(s: Sys, c: CancelReq)
    requires BooksOk(s) && Recorded(s, true) && c.symbol in s.books
    requires !Announced(s.gw, s.books[c.symbol], CancelItem(c))
    ensures var b := s.books[c.symbol];
            var step := Process(b, CancelItem(c));
            var out := NotifyAll(s.gw, step.calls);
            && !TableShows(ApplyEvents(Rows(s.view), out.events), c.symbol, step.book)
            && (Mirrors(s.Ui(), s.view) ==> !MirrorShows(ApplyMds(s.Ui(), out.packets), c.symbol, step.book))
  {
    hide BooksOk, TableShows, MirrorShows, Process, NotifyAll, Rows, ApplyEvents, ApplyMds, Mirrors, Valid, Shows,
         Keyed, Present;
    BookOf(s, c.symbol);
    CancelPublishedIff(s.gw, s.view, s.Ui(), c.symbol, s.books[c.symbol], c);
  }

  lemma {:induction false} UntoldReplace(s: Sys, q: ReplaceReq)
    requires Base(s) && Recorded(s, true) && s.ghosts == map[]
    requires s.queue != [] && s.queue[0] == ReplaceItem(q) && q.symbol in s.books
    requires !Answerable(s.books[q.symbol], ReplaceItem(q)) || !Announced(s.gw, s.books[q.symbol], ReplaceItem(q))
    ensures var b := s.books[q.symbol];
            var step := Process(b, ReplaceItem(q));
            var out := NotifyAll(s.gw, step.calls);
            && !TableShows(ApplyEvents(Rows(s.view), out.events), q.symbol, step.book)
            && (Mirrors(s.Ui(), s.view) ==>
                  !Valid(q.symbol, step.book) || !MirrorShows(ApplyMds(s.Ui(), out.packets), q.symbol, step.book))
  {
    hide Base, BooksOk, OrdersOk, QueueOk, TableShows, MirrorShows, Process, NotifyAll, Rows, ApplyEvents, ApplyMds,
         Mirrors, Valid, Shows, Keyed, Present, Lookup, Follows, AllPositive, FillsOnReentry;
    BaseParts(s);
    var b := s.books[q.symbol];
    BookOf(s, q.symbol);
    PositiveView(s);
    FitsPresence(s.view, q.symbol, b, q.id);
    LookupFinds(q.symbol, b, q.id);
    if s.gw.Knows(q.id) {
      assert ItemOk(s, ReplaceItem(q)) by { FrontIsOk(s); }
      KnownReplacePublishedIff(s.gw, s.view, s.kept, s.Ui(), q.symbol, b, q);
      if q.qty == 0 {
        EditIsInvalid(q.symbol, b, q);
      }
    } else {
      UnknownReplacePublishedIff(s.gw, s.view, s.Ui(), q.symbol, b, q);
      assert Present(b, q.id);
      assert s.view[q.id].leaves > 0 by { LeavesOf(s.view, q.id); }
    }
  }

  lemma {:induction false} LeavesOf(v: View, id: Id)
    requires AllPositive(v) && id in v
    ensures v[id].leaves > 0
  {
  }

  lemma {:induction false} FrontIsOk(s: Sys)
    requires QueueOk(s) && s.queue != []
    ensures ItemOk(s, s.queue[0])
  {
  }

  lemma {:induction false} EditIsInvalid(symbol: Symbol, b: Book, q: ReplaceReq)
    requires Valid(symbol, b) && !Honoured(b, q) && q.qty == 0
    ensures !Valid(symbol, Process(b, ReplaceItem(q)).book)
  {
    hide Valid, Lookup, Present;
    LookupFinds(symbol, b, q.id);
    ReplaceKeepsValidIff(symbol, b, q.id, q.price, q.qty);
  }

  // ---- The market-data mirror ----

  /** The mirror has one entry per resting order, and at every price of every side of every
      symbol shows the quantity resting there, listing no other price. */
  ghost predicate UiMatches(m: Mirror.State, books: BookMap) {
    && (forall sym :: sym in books ==> MirrorShows(m, sym, books[sym]))
    && (forall id :: id in m.orders ==> m.orders[id].symbol in books)
  }

  lemma {:induction false} UiHolds(s: Sys)
    requires Base(s) && UiOk(s)
    ensures UiMatches(s.Ui(), s.books) <==> s.ghosts == map[] && s.blanks == {}
  {
    hide Base, BooksOk, UiOk, MirrorShows, Mirrors;
    BaseParts(s);
    if s.ghosts != map[] {
      var id :| id in s.ghosts;
      GhostNotShown(s, id);
    } else if s.blanks != {} {
      var id :| id in s.blanks;
      BlankNotShown(s, id);
    } else {
      TableIsView(s);
      forall sym | sym in s.books
        ensures MirrorShows(s.Ui(), sym, s.books[sym])
      {
        BookOf(s, sym);
        MirrorsShow(s.Ui(), s.view, sym, s.books[sym]);
      }
    }
  }

  lemma {:induction false} BlankNotShown(s: Sys, id: Id)
    requires Base(s) && UiOk(s) && id in s.blanks
    ensures !UiMatches(s.Ui(), s.books)
  {
    hide Base, BooksOk, LevelShown, Lookup, Mirrors;
    BaseParts(s);
    ApartViews(s);
    ViewIsBooks(s);
    var sym := s.Ui().orders[id].symbol;
    assert !IsResting(s, sym, id);
  }

  /** After any run, with every packet applied, the mirror equals the books if and only if
      no replace was filled on re-entry and none was to nothing at another price. */
  lemma {:induction false} MirrorAgreesIff(symbols: set<Symbol>, run: seq<Action>)
    requires AllDefined(Start(symbols), run)
    ensures var s := Exec(Start(symbols), run);
            UiMatches(s.Ui(), s.books) <==> Quiet(Start(symbols), run) && NoneEmptied(Start(symbols), run)
  {
    hide Inv, Base, UiOk, UiMatches, Quiet, NoneEmptied, AllDefined, AllProper, Start;
    StartInv(symbols);
    StartFields(symbols);
    InvParts(Start(symbols));
    RunInv(symbols, run);
    GhostsIffSilent(Start(symbols), run);
    InvParts(Exec(Start(symbols), run));
    UiHolds(Exec(Start(symbols), run));
  }

  /** The books are in order and the mirror shows them. */
  ghost predicate UiGood(s: Sys) {
    (forall sym :: sym in s.books ==> Valid(sym, s.books[sym])) && UiMatches(s.Ui(), s.books)
  }

  ghost predicate AlwaysMirrored(s: Sys, run: seq<Action>)
    decreases |run|
  {
    UiGood(s) && (run == [] || AlwaysMirrored(Next(s, run[0]), run[1..]))
  }

  predicate AllMirrored(s: Sys, run: seq<Action>)
    decreases |run|
  {
    run == [] ||
    (Told(s, run[0]) && !SilentFill(s, run[0]) && !Empties(s, run[0]) && AllMirrored(Next(s, run[0]), run[1..]))
  }

  /** From any state with published records and a mirror of them, a restart with nobody logged
      on included: the books stay in order and the mirror equals them throughout the run if and
      only if it does so at the start, no step cancels or replaces an order without a session,
      unless by what already rests, none replaces a resting order by less than one unit, and
      no replace is filled on re-entry. */
  lemma {:induction false} MirrorAgreesThroughoutIff(s: Sys, run: seq<Action>)
    requires Published(s) && UiOk(s) && AllRegistered(s, run)
    ensures AlwaysMirrored(s, run) <==> s.ghosts == map[] && s.blanks == {} && AllMirrored(s, run)
    decreases |run|
  {
    hide Base, Recorded, TableOk, UiOk, Next, Told, SilentFill, Empties, Registered, UiMatches, Valid;
    UiHolds(s);
    AllValid(s);
    if run != [] && s.ghosts == map[] && s.blanks == {} {
      if Told(s, run[0]) {
        NextKeepsPublished(s, run[0]);
        HistoryStep(s, run[0]);
        MirrorAgreesThroughoutIff(Next(s, run[0]), run[1..]);
      } else {
        UntoldBreaks(s, run[0]);
        assert !AlwaysMirrored(Next(s, run[0]), run[1..]);
      }
    }
  }

  lemma {:induction false} AllValid(s: Sys)
    requires Base(s)
    ensures forall sym :: sym in s.books ==> Valid(sym, s.books[sym])
  {
    hide Base, BooksOk, Valid;
    BaseParts(s);
    forall sym | sym in s.books
      ensures Valid(sym, s.books[sym])
    {
      BookOf(s, sym);
    }
  }

  // ---- Crash and restart ----

  /** Wherever the event stream of a run is cut, even in the middle of an engine step, what was
      written can be restored, if and only if at no step an order came to rest at a price that
      meets a silently filled one. */
  lemma {:induction false} CrashRecoveryIsSafeIff(symbols: set<Symbol>, run: seq<Action>)
    requires AllDefined(Start(symbols), run)
    ensures CrashSafe(map[], Exec(Start(symbols), run).log, symbols) <==> NeverMeets(Start(symbols), run)
    ensures Quiet(Start(symbols), run) ==> NeverMeets(Start(symbols), run)
  {
    hide Inv, Base, GatewayOk, Published, Start, AllDefined, AllProper, AllTold, NeverMeets, Quiet, CrashSafe;
    StartInv(symbols);
    StartFields(symbols);
    RunInv(symbols, run);
    InvParts(Start(symbols));
    ProperRunIsTold(Start(symbols), run);
    EveryCutSafeIff(Start(symbols), run);
    ExecFrame(Start(symbols), run);
    if Quiet(Start(symbols), run) {
      QuietNeverMeets(Start(symbols), run);
    }
  }

  lemma {:induction false} ProperRunIsTold(s: Sys, run: seq<Action>)
    requires Base(s) && GatewayOk(s) && AllProper(s, run)
    ensures AllTold(s, run)
    decreases |run|
  {
    hide Base, GatewayOk, Next, Proper, Told, Defined;
    if run != [] {
      ProperIsDefined(s, run[0]);
      ProperIsTold(s, run[0]);
      NextKeepsBase(s, run[0]);
      NextKeepsGateway(s, run[0]);
      ProperRunIsTold(Next(s, run[0]), run[1..]);
    }
  }

  lemma {:induction false} ExecFrame(s: Sys, run: seq<Action>)
    ensures Exec(s, run).table0 == s.table0 && Exec(s, run).books.Keys == s.books.Keys
    decreases |run|
  {
    hide Next;
    if run != [] {
      NextFrame(s, run[0]);
      ExecFrame(Next(s, run[0]), run[1..]);
    }
  }

  lemma {:induction false} QuietNeverMeets(s: Sys, run: seq<Action>)
    requires Base(s) && AllDefined(s, run) && s.ghosts == map[] && Quiet(s, run)
    ensures NeverMeets(s, run)
    decreases |run|
  {
    hide Base, Next, Defined, SilentFill, ComesToRest;
    if run != [] {
      HistoryStep(s, run[0]);
      NextKeepsBase(s, run[0]);
      QuietNeverMeets(Next(s, run[0]), run[1..]);
    }
  }

  /** The restored books hold exactly the rows that were written. */
  lemma {:induction false} CrashRecoveryRebuilds(
    symbols: set<Symbol>, run: seq<Action>, k: nat, t: Table, os: seq<Order>)
    requires AllDefined(Start(symbols), run) && NeverMeets(Start(symbols), run)
    requires k <= |Exec(Start(symbols), run).log| && t == ApplyEvents(map[], Exec(Start(symbols), run).log[..k])
    requires Enumerates(os, Recovered(t))
    ensures Restorable(Recovered(t), symbols) && AllFit(Recovered(t), RestoreAll(EmptyBooks(symbols), os))
  {
    hide AllDefined, NeverMeets, Start, Exec, AllFit, Safe, Enumerates, Recovered, ApplyEvents, RestoreAll,
         EmptyBooks;
    CrashRecoveryIsSafeIff(symbols, run);
    assert Known(Recovered(t), symbols) == Recovered(t);
    RecoveryRebuildsIff(t, symbols, os);
  }

  /** Crash anywhere in such a run, restart with nobody logged on, send the mirror a snapshot
      of every symbol, and run on: the copies agree again. All of them stay so as long as no
      step touches an order before its owner has logged on; the table and the mirror as long
      as no such order is cancelled or replaced; the books in any case. */
  lemma {:induction false} CrashRestartRun(
    symbols: set<Symbol>, run: seq<Action>, k: nat, t: Table, os: seq<Order>, n: nat,
    listing: seq<Symbol>, run': seq<Action>)
    requires AllDefined(Start(symbols), run) && NeverMeets(Start(symbols), run)
    requires k <= |Exec(Start(symbols), run).log| && t == ApplyEvents(map[], Exec(Start(symbols), run).log[..k])
    requires Enumerates(os, Recovered(t)) && IsMaxSeq(t, n)
    requires forall s :: s in symbols <==> s in listing
    requires forall i, j :: 0 <= i < j < |listing| ==> listing[i] != listing[j]
    ensures var books := RestoreAll(EmptyBooks(symbols), os);
            && books.Keys == symbols
            && var s := Restarted(symbols, t, os, n, Snapshots(Blank(symbols), books, listing));
               && Inv(s)
               && (AllProper(s, run') ==> Inv(Exec(s, run')))
               && (AllTold(s, run') ==> Published(Exec(s, run')) && UiOk(Exec(s, run')))
               && (AllDefined(s, run') ==> Base(Exec(s, run')))
  {
    hide AllDefined, NeverMeets, Start, Exec, AllFit, Safe, Enumerates, Recovered, ApplyEvents, RestoreAll,
         IsMaxSeq, EmptyBooks, Mirrors, Snapshots, Blank, Restarted, Inv, AllProper, AllTold, Base, Published, UiOk;
    CrashRecoveryRebuilds(symbols, run, k, t, os);
    var books, v := RestoreAll(EmptyBooks(symbols), os), Recovered(t);
    RecoveryRebuildsIff(t, symbols, os);
    SnapshotsMirror(v, books, listing);
    var ui := Snapshots(Blank(symbols), books, listing);
    RestartInv(symbols, t, os, n, ui);
    RunsOn(Restarted(symbols, t, os, n, ui), run');
  }

  lemma {:induction false} RunsOn(s: Sys, run: seq<Action>)
    requires Inv(s)
    ensures AllProper(s, run) ==> Inv(Exec(s, run))
    ensures AllTold(s, run) ==> Published(Exec(s, run)) && UiOk(Exec(s, run))
    ensures AllDefined(s, run) ==> Base(Exec(s, run))
  {
    hide Inv, Base, Published, UiOk, AllProper, AllTold, AllDefined, Exec;
    InvParts(s);
    if AllProper(s, run) {
      ExecKeepsInv(s, run);
    }
    if AllTold(s, run) {
      ExecKeepsPublished(s, run);
    }
    if AllDefined(s, run) {
      ExecKeepsBase(s, run);
    }
  }
}
