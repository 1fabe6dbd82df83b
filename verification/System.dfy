/** The whole exchange: messages, queue, engine steps, and the three derived copies of the
    book, over every run. */
module System {
  import opened Orders
  import opened Books
  import opened Ledger
  import opened Engine
  import opened Views
  import opened Gateway
  import opened Publishing
  import opened Leftovers
  import opened Agreement
  import opened Announcing
  import opened Mirror
  import opened Persistence

  /** The state of the exchange. The last five components are history: the resting orders
      as one set, the orders the gateway keeps although they do not rest, those of them
      that were dropped, the published orders that no longer rest, and the orders taken out
      by a replace to nothing. */
  datatype Sys = Sys(
    books: BookMap, ledgers: map<Symbol, History>, gw: Gw, queue: seq<WorkItem>,
    table0: Table, log: seq<DbEvent>, ui0: Mirror.State, feed: seq<Packet>,
    view: View, kept: View, dropped: set<Id>, ghosts: View, blanks: set<Id>)
  {
    function Table(): Table {
      ApplyEvents(table0, log)
    }

    function Ui(): Mirror.State {
      ApplyMds(ui0, feed)
    }
  }

  datatype Action =
    | Submit(msg: OrderMsg, session: Session)
    | AskCancel(cancel: CancelReq)
    | AskReplace(replace: ReplaceReq)
    | LogOn(client: string, session: Session)
    | Dequeue

  /** It is not a replace for less than one unit of a resting order, unless for nothing at
      another price. */
  predicate Answerable(b: Book, item: WorkItem) {
    item.ReplaceItem? ==> Honoured(b, item.replace)
  }

  /** What the engine takes from the queue names a registered symbol; the gateway does not
      check that of a cancel or replace. */
  predicate Registered(s: Sys, a: Action) {
    a.Dequeue? && s.queue != [] ==> SymbolOf(s.queue[0]) in s.books
  }

  /** It is moreover answerable, which the gateway does not check either. */
  predicate Defined(s: Sys, a: Action) {
    a.Dequeue? && s.queue != [] ==>
      SymbolOf(s.queue[0]) in s.books && Answerable(s.books[SymbolOf(s.queue[0])], s.queue[0])
  }

  /** It is defined and the table and the mirror are told of it. */
  predicate Told(s: Sys, a: Action) {
    Defined(s, a) &&
    (a.Dequeue? && s.queue != [] ==> Announced(s.gw, s.books[SymbolOf(s.queue[0])], s.queue[0]))
  }

  /** It is defined and changes no order that has no session. */
  ghost predicate Proper(s: Sys, a: Action) {
    Defined(s, a) &&
    (a.Dequeue? && s.queue != [] ==> Untouched(s.gw, s.books[SymbolOf(s.queue[0])], s.queue[0]))
  }

  function NewEntries(b: Book, item: WorkItem): History {
    match item
    case NewOrder(o) => if Killed(b, o) then [] else EntriesOf(b, AddOp(o))
    case CancelItem(c) => EntriesOf(b, CancelOp(c.id))
    case ReplaceItem(q) => EntriesOf(b, ReplaceOp(q.id, q.price, q.qty))
  }

  function Stepped(s: Sys, item: WorkItem): Sys
    requires SymbolOf(item) in s.books && SymbolOf(item) in s.ledgers
  {
    var sym := SymbolOf(item);
    var b := s.books[sym];
    var r := Process(b, item);
    var out := NotifyAll(s.gw, r.calls);
    s.(books := s.books[sym := r.book],
       ledgers := s.ledgers[sym := s.ledgers[sym] + NewEntries(b, item)],
       gw := out.gw,
       log := s.log + out.events,
       feed := s.feed + out.packets,
       view := Effects(s.view, r.calls),
       kept := KeptAfter(b, item, s.kept),
       dropped := if item.NewOrder? && Drops(b, item.order) then s.dropped + {item.order.id} else s.dropped,
       ghosts := GhostsAfter(b, item, s.view, s.ghosts),
       blanks := BlanksAfter(b, item, s.blanks))
  }

  function Next(s: Sys, a: Action): Sys {
    match a
    case Submit(msg, session) =>
      var m := msg.(knownSymbol := msg.symbol in s.books);
      var s' := s.(gw := OnOrderMsg(s.gw, m, session));
      var o := OrderFrom(s.gw, m);
      if Accepts(m) then s'.(queue := s.queue + [NewOrder(o)], kept := s.kept[o.id := o]) else s'
    case AskCancel(c) =>
      if ForwardsCancel(s.gw, c) then s.(queue := s.queue + [CancelItem(c)]) else s
    case AskReplace(q) =>
      if ForwardsReplace(s.gw, q) then s.(queue := s.queue + [ReplaceItem(q)]) else s
    case LogOn(client, session) => s.(gw := Rebind(s.gw, client, session))
    case Dequeue =>
      if s.queue == [] then s
      else
        var item := s.queue[0];
        if SymbolOf(item) in s.books && SymbolOf(item) in s.ledgers
        then Stepped(s.(queue := s.queue[1..]), item)
        else s
  }

  function Exec(s: Sys, run: seq<Action>): Sys
    decreases |run|
  {
    if run == [] then s else Exec(Next(s, run[0]), run[1..])
  }

  predicate AllRegistered(s: Sys, run: seq<Action>)
    decreases |run|
  {
    run == [] || (Registered(s, run[0]) && AllRegistered(Next(s, run[0]), run[1..]))
  }

  predicate AllDefined(s: Sys, run: seq<Action>)
    decreases |run|
  {
    run == [] || (Defined(s, run[0]) && AllDefined(Next(s, run[0]), run[1..]))
  }

  predicate AllTold(s: Sys, run: seq<Action>)
    decreases |run|
  {
    run == [] || (Told(s, run[0]) && AllTold(Next(s, run[0]), run[1..]))
  }

  ghost predicate AllProper(s: Sys, run: seq<Action>)
    decreases |run|
  {
    run == [] || (Proper(s, run[0]) && AllProper(Next(s, run[0]), run[1..]))
  }

  // ---- The invariants ----

  ghost predicate BooksOk(s: Sys) {
    && s.ledgers.Keys == s.books.Keys
    && (forall sym :: sym in s.books ==> Accounted(sym, s.books[sym], s.ledgers[sym]))
    && AllFit(s.view, s.books)
    && (forall id :: id in s.view ==> s.view[id].symbol in s.books)
  }

  ghost predicate Bounded(ids: set<Id>, n: nat) {
    forall id :: id in ids ==> 1 <= id <= n
  }

  ghost predicate OrdersOk(s: Sys) {
    && Apartness(s.view, s.kept, s.ghosts, s.blanks)
    && AllPositive(s.view + s.ghosts) && Keyed(s.view + s.ghosts)
    && (forall id :: id in s.ghosts ==> s.ghosts[id].symbol in s.books)
    && Bounded(s.view.Keys + s.kept.Keys + s.ghosts.Keys + s.blanks, s.gw.seqNo)
  }

  predicate ItemOk(s: Sys, item: WorkItem) {
    match item
    case NewOrder(o) =>
      && o.symbol in s.books
      && o.qty >= 1 && o.leaves == o.qty && o.id in s.kept && s.kept[o.id] == o && o.id !in s.dropped
    case CancelItem(_) => true
    case ReplaceItem(q) =>
      && q.id <= s.gw.seqNo
      && (q.id in s.view ==> s.view[q.id].side == q.side)
      && (q.id in s.kept ==> s.kept[q.id].side == q.side)
  }

  predicate Due(s: Sys, item: WorkItem) {
    ItemOk(s, item) && SymbolOf(item) in s.books && Answerable(s.books[SymbolOf(item)], item)
  }

  ghost predicate QueueOk(s: Sys) {
    && (forall i :: 0 <= i < |s.queue| ==> ItemOk(s, s.queue[i]))
    && (forall i, j :: 0 <= i < j < |s.queue| && s.queue[i].NewOrder? && s.queue[j].NewOrder? ==>
          s.queue[i].order.id != s.queue[j].order.id)
    && s.dropped <= s.kept.Keys
    && (forall id :: id in s.kept ==> id in s.dropped || Queued(s.queue, id))
  }

  /** The gateway has a record of every resting and every kept order. */
  ghost predicate Recorded(s: Sys, priced: bool) {
    Follows(s.gw, s.view, s.kept, priced)
  }

  /** What every defined action keeps: books and histories, queue, and whose records there are. */
  ghost predicate Base(s: Sys) {
    BooksOk(s) && OrdersOk(s) && QueueOk(s) && Recorded(s, false)
  }

  /** The table holds the published orders. */
  ghost predicate TableOk(s: Sys) {
    s.Table() == Rows(s.view + s.ghosts)
  }

  /** What every told action keeps: the prices in the records, and the table. */
  ghost predicate Published(s: Sys) {
    Base(s) && Recorded(s, true) && TableOk(s)
  }

  /** The mirror holds the published orders too, and an entry without quantity for every order
      taken out by a replace to nothing. */
  ghost predicate UiOk(s: Sys) {
    && Mirrors(Strip(s.Ui(), s.blanks), s.view + s.ghosts)
    && (forall id :: id in s.blanks ==> id in s.Ui().orders && s.Ui().orders[id].qty == 0)
  }

  /** The gateway's records are the resting and the kept orders. */
  ghost predicate GatewayOk(s: Sys) {
    Agree(s.gw, s.view, s.kept)
  }

  /** What every proper action keeps: everything. */
  ghost predicate Inv(s: Sys) {
    Base(s) && GatewayOk(s) && TableOk(s) && UiOk(s)
  }

  // ---- What an action does ----

  lemma {:induction false} NextIs(s: Sys, a: Action)
    ensures match a {
              case Submit(msg, session) =>
                var m := msg.(knownSymbol := msg.symbol in s.books);
                var o := OrderFrom(s.gw, m);
                Next(s, a) == if Accepts(m)
                              then s.(gw := OnOrderMsg(s.gw, m, session), queue := s.queue + [NewOrder(o)],
                                      kept := s.kept[o.id := o])
                              else s.(gw := OnOrderMsg(s.gw, m, session))
              case AskCancel(c) =>
                Next(s, a) == if ForwardsCancel(s.gw, c) then s.(queue := s.queue + [CancelItem(c)]) else s
              case AskReplace(q) =>
                Next(s, a) == if ForwardsReplace(s.gw, q) then s.(queue := s.queue + [ReplaceItem(q)]) else s
              case LogOn(client, session) => Next(s, a) == s.(gw := Rebind(s.gw, client, session))
              case Dequeue =>
                if s.queue != [] && SymbolOf(s.queue[0]) in s.books && SymbolOf(s.queue[0]) in s.ledgers
                then Next(s, a) == Stepped(s.(queue := s.queue[1..]), s.queue[0])
                else Next(s, a) == s
            }
  {
    hide Stepped, OnOrderMsg, Rebind, Accepts, ForwardsCancel, ForwardsReplace;
  }

  /** What no action changes, and what only a step changes. */
  lemma {:induction false} NextFrame(s: Sys, a: Action)
    ensures var s' := Next(s, a);
            && s'.table0 == s.table0 && s'.ui0 == s.ui0 && s'.books.Keys == s.books.Keys
            && s'.log == s.log + s'.log[|s.log|..]
            && (!a.Dequeue? || s.queue == [] ==> s' == s.(gw := s'.gw, queue := s'.queue, kept := s'.kept))
  {
    hide Next, Stepped, Rebind, OnOrderMsg, Accepts, ForwardsCancel, ForwardsReplace, Process, NotifyAll;
    assert s.log + s.log[|s.log|..] == s.log;
    NextIs(s, a);
    match a
    case Dequeue =>
      if s.queue != [] && SymbolOf(s.queue[0]) in s.books && SymbolOf(s.queue[0]) in s.ledgers {
        SteppedFrame(s.(queue := s.queue[1..]), s.queue[0]);
      }
    case _ =>
  }

  // ---- One engine step: books and orders ----

  lemma {:induction false} StepBooks(s: Sys, item: WorkItem)
    requires BooksOk(s) && Due(s, item) && s.view.Keys !! s.kept.Keys
    ensures BooksOk(Stepped(s, item))
    ensures Acceptable(SymbolOf(item), s.books[SymbolOf(item)], s.view, item)
  {
    hide Accounted, EntriesOf, Add, Cancel, Replace, Effects, Valid, Shows, Keyed, Present, Lookup, Process,
         NewEntries, NotifyAll, Elsewhere;
    var sym := SymbolOf(item);
    var b := s.books[sym];
    DueIsAcceptable(s, item);
    hide Acceptable;
    ProcessFits(s.view, sym, b, item);
    StepLedger(sym, b, s.ledgers[sym], s.view, item);
    StepViews(s.view, Effects(s.view, Process(b, item).calls), s.books, sym, Process(b, item).book);
  }

  lemma {:induction false} DueIsAcceptable(s: Sys, item: WorkItem)
    requires BooksOk(s) && Due(s, item) && s.view.Keys !! s.kept.Keys
    ensures var sym := SymbolOf(item);
            && Acceptable(sym, s.books[sym], s.view, item)
            && Valid(sym, s.books[sym]) && Fits(s.view, sym, s.books[sym]) && Keyed(s.view)
  {
    hide Accounted, Valid, Shows, Keyed, Present, Lookup;
    AllFitKeyed(s.view, s.books, SymbolOf(item));
  }

  lemma {:induction false} StepViews(v: View, v': View, books: BookMap, sym: Symbol, b: Book)
    requires AllFit(v, books) && (forall id :: id in v ==> v[id].symbol in books) && sym in books
    requires Valid(sym, b) && Fits(v', sym, b) && Keyed(v') && Elsewhere(v, v', sym)
    ensures AllFit(v', books[sym := b]) && (forall id :: id in v' ==> v'[id].symbol in books[sym := b])
  {
    hide Valid, Shows;
    forall t | t in books && t != sym
      ensures Fits(v', t, books[t])
    {
      FitsUnmoved(v, v', sym, t, books[t]);
    }
    forall id | id in v'
      ensures v'[id].symbol in books[sym := b]
    {
      assert v'[id].symbol != sym ==> id in v && v'[id] == v[id];
    }
  }

  lemma {:induction false} FitsUnmoved(v: View, v': View, symbol: Symbol, t: Symbol, b: Book)
    requires Fits(v, t, b) && Elsewhere(v, v', symbol) && t != symbol && Valid(t, b)
    ensures Fits(v', t, b)
  {
    assert forall d: Side, i :: 0 <= i < |b.On(d)| ==> RestingOrder(t, d, b.On(d)[i]);
    assert forall i :: 0 <= i < |b.bids| ==> b.bids[i] == b.On(Buy)[i];
    assert forall i :: 0 <= i < |b.asks| ==> b.asks[i] == b.On(Sell)[i];
  }

  lemma {:induction false} StepLedger(sym: Symbol, b: Book, h: History, v: View, item: WorkItem)
    requires Accounted(sym, b, h) && Acceptable(sym, b, v, item) && Fits(v, sym, b) && Keyed(v)
    ensures Accounted(sym, Process(b, item).book, h + NewEntries(b, item))
  {
    hide InTime, Tracked, Balanced, AllHonest, Valid, Shows, Keyed;
    match item
    case NewOrder(o) =>
      FitsPresence(v, sym, b, o.id);
      if Killed(b, o) {
        assert h + [] == h;
      } else {
        StepKeepsAccountsIff(sym, b, AddOp(o), h);
      }
    case CancelItem(c) => StepKeepsAccountsIff(sym, b, CancelOp(c.id), h);
    case ReplaceItem(q) => StepKeepsAccountsIff(sym, b, ReplaceOp(q.id, q.price, q.qty), h);
  }

  /** Callbacks never add an order to the gateway. */
  lemma {:induction false} CallbacksOnlyRemove(g: Gw, cs: seq<Callback>)
    ensures var g' := NotifyAll(g, cs).gw; g'.seqNo == g.seqNo && g'.active.Keys <= g.active.Keys
    decreases |cs|
  {
    if cs != [] {
      OneOnlyRemoves(g, cs[0]);
      hide Notify;
      CallbacksOnlyRemove(Notify(g, cs[0]).gw, cs[1..]);
    }
  }

  lemma {:induction false} OneOnlyRemoves(g: Gw, c: Callback)
    ensures var g' := Notify(g, c).gw; g'.seqNo == g.seqNo && g'.active.Keys <= g.active.Keys
  {
  }

  lemma {:induction false} BooksAreSafe(v: View, books: BookMap)
    requires AllFit(v, books) && forall id :: id in v ==> v[id].symbol in books
    ensures Safe(v) && AllPositive(v) && Keyed(v)
  {
    hide Valid, Shows;
    forall id | id in v
      ensures v[id] in books[v[id].symbol].On(v[id].side) && v[id].id == id
    {
      InItsBook(v, v[id].symbol, books[v[id].symbol], id);
    }
    ValidIsSafe(v, books);
  }

  lemma {:induction false} InItsBook(v: View, symbol: Symbol, b: Book, id: Id)
    requires Valid(symbol, b) && Fits(v, symbol, b) && Keyed(v) && id in v && v[id].symbol == symbol
    ensures v[id] in b.On(v[id].side) && v[id].id == id
  {
    hide Valid, Shows, Present, Lookup;
    assert v[id].id == id;
    hide Keyed;
    FitsPresence(v, symbol, b, id);
    LookupFinds(symbol, b, id);
  }

  /** Resting, kept, published but gone, and taken out by a replace to nothing: no step puts
      an order in two of these sets, or in one of them that was in none. */
  lemma {:induction false} ApartAfter(
    v: View, kept: View, ghosts: View, blanks: set<Id>, symbol: Symbol, b: Book, item: WorkItem)
    requires Valid(symbol, b) && Fits(v, symbol, b) && Keyed(v) && Acceptable(symbol, b, v, item)
    requires Apartness(v, kept, ghosts, blanks) && (item.NewOrder? ==> item.order.id in kept)
    ensures var v', kept' := Effects(v, Process(b, item).calls), KeptAfter(b, item, kept);
            var ghosts', blanks' := GhostsAfter(b, item, v, ghosts), BlanksAfter(b, item, blanks);
            && Apartness(v', kept', ghosts', blanks')
            && v'.Keys + kept'.Keys + ghosts'.Keys + blanks' <= v.Keys + kept.Keys + ghosts.Keys + blanks
  {
    hide Valid, Shows, Keyed, Effects, Process, Drops, FillsOnReentry, Zeroes, Acceptable, Add;
    StepKeeps(v, b, item);
    LeavesTheView(v, symbol, b, item);
    match item
    case NewOrder(o) =>
    case CancelItem(_) =>
    case ReplaceItem(q) => NotBoth(b, q);
  }

  lemma {:induction false} NotBoth(b: Book, q: ReplaceReq)
    ensures !(FillsOnReentry(b, q) && Zeroes(b, q))
  {
  }

  lemma {:induction false} StepOrders(s: Sys, item: WorkItem)
    requires BooksOk(s) && OrdersOk(s) && Due(s, item) && BooksOk(Stepped(s, item)) && SymbolOf(item) in s.ledgers
    ensures OrdersOk(Stepped(s, item))
  {
    hide Accounted, Process, NotifyAll, Effects, AllFit, KeptAfter, GhostsAfter, BlanksAfter, NewEntries, Drops,
         AllPositive, Keyed, Safe, Valid, Shows, Acceptable, Answerable, Apartness;
    var b, s' := s.books[SymbolOf(item)], Stepped(s, item);
    assert s.view.Keys !! s.kept.Keys by { ApartViews(s); }
    DueIsAcceptable(s, item);
    ApartAfter(s.view, s.kept, s.ghosts, s.blanks, SymbolOf(item), b, item);
    CallbacksOnlyRemove(s.gw, Process(b, item).calls);
    BooksAreSafe(s'.view, s'.books);
    GhostsAfterGood(s, item);
    JointlyGood(s'.view, s'.ghosts);
  }

  lemma {:induction false} ApartViews(s: Sys)
    requires OrdersOk(s)
    ensures s.view.Keys !! s.kept.Keys && s.view.Keys !! s.ghosts.Keys && s.kept.Keys !! s.ghosts.Keys
    ensures s.blanks !! s.view.Keys && s.blanks !! s.kept.Keys && s.blanks !! s.ghosts.Keys
    ensures AllPositive(s.view + s.ghosts) && Keyed(s.view + s.ghosts)
  {
    hide AllPositive, Keyed;
  }

  lemma {:induction false} JointlyGood(v: View, w: View)
    requires AllPositive(v) && Keyed(v) && AllPositive(w) && Keyed(w)
    ensures AllPositive(v + w) && Keyed(v + w)
  {
  }

  lemma {:induction false} GhostsAfterGood(s: Sys, item: WorkItem)
    requires BooksOk(s) && OrdersOk(s) && SymbolOf(item) in s.books
    ensures var g' := GhostsAfter(s.books[SymbolOf(item)], item, s.view, s.ghosts);
            && AllPositive(g') && Keyed(g')
            && (forall id :: id in g' ==> g'[id].symbol in s.books)
            && (forall id :: id in s.ghosts ==> id in g' && g'[id] == s.ghosts[id])
  {
    hide Accounted, FillsOnReentry, AllFit, Safe;
    BooksAreSafe(s.view, s.books);
    assert forall id :: id in s.ghosts ==> (s.view + s.ghosts)[id] == s.ghosts[id];
    assert s.view.Keys !! s.ghosts.Keys;
    hide BooksOk, OrdersOk;
    var g' := GhostsAfter(s.books[SymbolOf(item)], item, s.view, s.ghosts);
    assert forall id :: id in g' ==>
      (id in s.ghosts && g'[id] == s.ghosts[id]) || (id in s.view && g'[id] == s.view[id]);
  }

  // ---- One engine step: the queue ----

  /** Nobody changes sides. */
  lemma {:induction false} SidesStay(s: Sys, item: WorkItem)
    requires ItemOk(s, item) && SymbolOf(item) in s.books && SymbolOf(item) in s.ledgers
    ensures var s' := Stepped(s, item);
            && (forall id :: id in s'.view ==>
                  || (id in s.view && s.view[id].side == s'.view[id].side)
                  || (id in s.kept && s.kept[id].side == s'.view[id].side))
            && (forall id :: id in s'.kept ==> id in s.kept && s.kept[id].side == s'.kept[id].side)
  {
    hide Process, NotifyAll, Effects, Drops, Add, NewEntries, GhostsAfter, BlanksAfter;
    StepKeeps(s.view, s.books[SymbolOf(item)], item);
  }

  lemma {:induction false} DequeueQueue(s: Sys, item: WorkItem)
    requires QueueOk(s) && s.queue != [] && s.queue[0] == item
    requires SymbolOf(item) in s.books && SymbolOf(item) in s.ledgers
    ensures QueueOk(Stepped(s.(queue := s.queue[1..]), item))
  {
    hide Process, NotifyAll, Effects, Drops, Add, NewEntries, GhostsAfter, BlanksAfter, Queued;
    var s' := Stepped(s.(queue := s.queue[1..]), item);
    CallbacksOnlyRemove(s.gw, Process(s.books[SymbolOf(item)], item).calls);
    assert ItemOk(s, item);
    SidesStay(s.(queue := s.queue[1..]), item);
    forall i | 0 <= i < |s'.queue|
      ensures s'.queue[i] == s.queue[i + 1] && ItemOk(s', s'.queue[i])
    {
      assert ItemOk(s, s.queue[i + 1]);
    }
    hide ItemOk;
    forall id | id in s'.kept && id !in s'.dropped
      ensures Queued(s'.queue, id)
    {
      StillQueued(s.queue, id);
    }
  }

  lemma {:induction false} StillQueued(queue: seq<WorkItem>, id: Id)
    requires queue != [] && Queued(queue, id) && (queue[0].NewOrder? ==> queue[0].order.id != id)
    ensures Queued(queue[1..], id)
  {
    var i :| 0 <= i < |queue| && queue[i].NewOrder? && queue[i].order.id == id;
    assert queue[1..][i - 1] == queue[i];
  }

  // ---- One engine step: the copies ----

  lemma {:induction false} StepRecords(s: Sys, item: WorkItem, priced: bool)
    requires BooksOk(s) && OrdersOk(s) && Due(s, item) && Recorded(s, priced) && SymbolOf(item) in s.ledgers
    requires priced ==> Announced(s.gw, s.books[SymbolOf(item)], item)
    ensures Recorded(Stepped(s, item), priced)
  {
    hide BooksOk, Announced, Follows, Process, NotifyAll, Effects, KeptAfter, GhostsAfter, BlanksAfter, NewEntries,
         Drops, Valid, Shows, Keyed, AllPositive, Bounded, Acceptable, Answerable;
    DueIsAcceptable(s, item);
    StepFollows(s.gw, s.view, s.kept, SymbolOf(item), s.books[SymbolOf(item)], item, priced);
  }

  lemma {:induction false} StepGateway(s: Sys, item: WorkItem)
    requires BooksOk(s) && OrdersOk(s) && GatewayOk(s) && Due(s, item) && SymbolOf(item) in s.ledgers
    requires Untouched(s.gw, s.books[SymbolOf(item)], item)
    ensures GatewayOk(Stepped(s, item))
  {
    hide BooksOk, Untouched, Agree, Process, NotifyAll, Effects, KeptAfter, GhostsAfter, BlanksAfter, NewEntries,
         Drops, Valid, Shows, Keyed, AllPositive, Bounded, Acceptable, Answerable;
    DueIsAcceptable(s, item);
    StepAgrees(s.gw, s.view, s.kept, SymbolOf(item), s.books[SymbolOf(item)], item);
  }

  /** What a step's messages make of the published orders p. */
  ghost predicate Delivers(s: Sys, item: WorkItem, p: View, blanks: set<Id>)
    requires SymbolOf(item) in s.books
  {
    var out := NotifyAll(s.gw, Process(s.books[SymbolOf(item)], item).calls);
    && ApplyEvents(Rows(s.view + s.ghosts), out.events) == Rows(p)
    && (Mirrors(Strip(s.Ui(), s.blanks), s.view + s.ghosts) ==>
          && Mirrors(Strip(ApplyMds(s.Ui(), out.packets), blanks), p)
          && SameEntries(s.Ui(), ApplyMds(s.Ui(), out.packets), s.blanks)
          && (forall id :: id in blanks && id !in s.blanks ==>
                id in ApplyMds(s.Ui(), out.packets).orders && ApplyMds(s.Ui(), out.packets).orders[id].qty == 0))
  }

  /** A step of which the outside is told is published as it happens. */
  lemma {:induction false} StepDelivers(s: Sys, item: WorkItem)
    requires BooksOk(s) && OrdersOk(s) && Due(s, item) && Recorded(s, true) && SymbolOf(item) in s.ledgers
    requires Announced(s.gw, s.books[SymbolOf(item)], item)
    ensures Delivers(s, item, Stepped(s, item).view + Stepped(s, item).ghosts, Stepped(s, item).blanks)
  {
    hide BooksOk, OrdersOk, Announced, Follows, Process, NotifyAll, Effects, KeptAfter, NewEntries,
         Drops, Valid, Shows, Keyed, AllPositive, Bounded, Acceptable, Answerable, Delivers, GhostsAfter,
         FillsOnReentry, Zeroes;
    var b, s' := s.books[SymbolOf(item)], Stepped(s, item);
    ApartViews(s);
    DueIsAcceptable(s, item);
    if item.ReplaceItem? && Zeroes(b, item.replace) {
      ZeroDelivers(s, item.replace);
    } else {
      PlainDelivers(s, item);
    }
  }

  lemma {:induction false} PlainDelivers(s: Sys, item: WorkItem)
    requires SymbolOf(item) in s.books && Recorded(s, true) && Apartness(s.view, s.kept, s.ghosts, s.blanks)
    requires var sym := SymbolOf(item);
             && Acceptable(sym, s.books[sym], s.view, item)
             && Valid(sym, s.books[sym]) && Fits(s.view, sym, s.books[sym]) && Keyed(s.view)
             && Announced(s.gw, s.books[sym], item)
             && !(item.ReplaceItem? && Zeroes(s.books[sym], item.replace))
    requires AllPositive(s.view + s.ghosts) && Keyed(s.view + s.ghosts) && ItemOk(s, item)
    ensures var b := s.books[SymbolOf(item)];
            var v', ghosts' := Effects(s.view, Process(b, item).calls), GhostsAfter(b, item, s.view, s.ghosts);
            Delivers(s, item, v' + ghosts', s.blanks)
  {
    hide Announced, Follows, Process, NotifyAll, Effects, Valid, Shows, Keyed, AllPositive, Bounded, Acceptable,
         GhostsAfter, Mirrors, Strip, ApplyMds, ApplyEvents, Rows, SameEntries, PublishAll, AllSound, Zeroes, Alike;
    var b := s.books[SymbolOf(item)];
    var p, cs := s.view + s.ghosts, Process(b, item).calls;
    var p' := Effects(s.view, cs) + GhostsAfter(b, item, s.view, s.ghosts);
    StepAnnounces(s.gw, s.view, s.kept, s.ghosts, SymbolOf(item), b, item);
    AllPersists(s.gw, p, cs);
    AlikePublished(PublishAll(s.gw, p, cs), p');
    RestsOnly(b, item);
    if Mirrors(Strip(s.Ui(), s.blanks), p) {
      AllMirrorsBut(s.Ui(), s.gw, p, cs, s.blanks);
      AlikeMirrored(Strip(ApplyMds(s.Ui(), NotifyAll(s.gw, cs).packets), s.blanks), PublishAll(s.gw, p, cs), p');
    }
  }

  lemma {:induction false} AlikePublished(p: View, p': View)
    requires Alike(p, p')
    ensures Rows(p) == Rows(p')
  {
  }

  lemma {:induction false} AlikeMirrored(m: Mirror.State, p: View, p': View)
    requires Alike(p, p') && Mirrors(m, p)
    ensures Mirrors(m, p')
  {
    hide Consistent;
    assert Md(p) == Md(p');
  }

  lemma {:induction false} RestsOnly(b: Book, item: WorkItem)
    ensures var cs := Process(b, item).calls;
            forall i :: 0 <= i < |cs| && cs[i].OnRested? ==> item.NewOrder? && cs[i].order.id == item.order.id
  {
    hide Add, Replace, Cancel, Killed, Present;
  }

  lemma {:induction false} ZeroDelivers(s: Sys, q: ReplaceReq)
    requires q.symbol in s.books && Recorded(s, true) && Apartness(s.view, s.kept, s.ghosts, s.blanks)
    requires ItemOk(s, ReplaceItem(q)) && Zeroes(s.books[q.symbol], q)
    requires var b := s.books[q.symbol];
             Valid(q.symbol, b) && Fits(s.view, q.symbol, b) && Keyed(s.view) && Announced(s.gw, b, ReplaceItem(q))
    requires AllPositive(s.view + s.ghosts) && Keyed(s.view + s.ghosts)
    ensures var b := s.books[q.symbol];
            var v' := Effects(s.view, Process(b, ReplaceItem(q)).calls);
            var ghosts' := GhostsAfter(b, ReplaceItem(q), s.view, s.ghosts);
            Delivers(s, ReplaceItem(q), v' + ghosts', s.blanks + {q.id})
  {
    hide Valid, Shows, Keyed, Process, NotifyAll, Effects, Mirrors, Strip, ApplyMds, ApplyEvents, Rows, SameEntries,
         AllPositive, Follows, Present, PublishAll, Lookup;
    var b, g, v, p, call := s.books[q.symbol], s.gw, s.view, s.view + s.ghosts, OnReplace(q, true, 0);
    ZeroIsCancel(q.symbol, b, q);
    FitsPresence(v, q.symbol, b, q.id);
    assert q.id in g.active && Stands(g.active[q.id], v[q.id], true) by { RecordOf(s, q.id); }
    assert v[q.id].leaves > 0 && p[q.id] == v[q.id] by { SomeLeft(v, s.ghosts, q.id); }
    assert g.Knows(q.id);
    EffectsOne(v, [call]);
    NotifyOne(g, call);
    PublishOne(g, p, call);
    AllPersists(g, p, [call]);
    assert (v - {q.id}) + s.ghosts == p - {q.id};
    if Mirrors(Strip(s.Ui(), s.blanks), p) {
      BlankMirrors(s.Ui(), p, q, s.blanks);
    }
  }

  lemma {:induction false} SomeLeft(v: View, ghosts: View, id: Id)
    requires AllPositive(v + ghosts) && id in v && id !in ghosts
    ensures v[id].leaves > 0 && (v + ghosts)[id] == v[id]
  {
    assert (v + ghosts)[id] == v[id];
  }

  lemma {:induction false} RecordOf(s: Sys, id: Id)
    requires Recorded(s, true) && (id in s.view || id in s.kept)
    ensures id in s.gw.active && Stands(s.gw.active[id], if id in s.view then s.view[id] else s.kept[id], true)
  {
  }

  lemma {:induction false} StepFeeds(s: Sys, item: WorkItem)
    requires BooksOk(s) && OrdersOk(s) && Due(s, item) && Recorded(s, true)
    requires SymbolOf(item) in s.books && SymbolOf(item) in s.ledgers
    requires Announced(s.gw, s.books[SymbolOf(item)], item)
    ensures TableOk(s) ==> TableOk(Stepped(s, item))
    ensures UiOk(s) ==> UiOk(Stepped(s, item))
  {
    hide BooksOk, OrdersOk, Process, NotifyAll, Effects, Rows, Mirrors, Strip, Recorded, Due, Announced,
         ApplyMds, ApplyEvents, NewEntries, KeptAfter, GhostsAfter, BlanksAfter, Drops;
    var out := NotifyAll(s.gw, Process(s.books[SymbolOf(item)], item).calls);
    StepDelivers(s, item);
    ApplyEventsAppend(s.table0, s.log, out.events);
    ApplyMdsAppend(s.ui0, s.feed, out.packets);
  }

  lemma {:induction false} SteppedFrame(s: Sys, item: WorkItem)
    requires SymbolOf(item) in s.books && SymbolOf(item) in s.ledgers
    ensures var s', out := Stepped(s, item), NotifyAll(s.gw, Process(s.books[SymbolOf(item)], item).calls);
            && s'.table0 == s.table0 && s'.ui0 == s.ui0
            && s'.books.Keys == s.books.Keys && s'.ledgers.Keys == s.ledgers.Keys
            && s'.queue == s.queue && s'.log == s.log + out.events && s'.log[|s.log|..] == out.events
            && s'.books == s.books[SymbolOf(item) := Process(s.books[SymbolOf(item)], item).book]
            && s'.gw == out.gw && s'.feed == s.feed + out.packets
  {
    hide Process, NotifyAll, Effects, KeptAfter, GhostsAfter, BlanksAfter, NewEntries, Drops;
  }

  // ---- Dequeueing ----

  lemma {:induction false} BaseParts(s: Sys)
    requires Base(s)
    ensures BooksOk(s) && OrdersOk(s) && QueueOk(s) && Recorded(s, false) && s.ledgers.Keys == s.books.Keys
    ensures s.view.Keys !! s.kept.Keys
  {
  }

  lemma {:induction false} FrontIsDue(s: Sys)
    requires Base(s) && Defined(s, Dequeue) && s.queue != []
    ensures Due(s, s.queue[0]) && Due(s.(queue := s.queue[1..]), s.queue[0])
    ensures s.view.Keys !! s.kept.Keys && SymbolOf(s.queue[0]) in s.ledgers
  {
    hide BooksOk, OrdersOk, Recorded, Answerable;
    BaseParts(s);
    assert ItemOk(s, s.queue[0]);
  }

  /** Nothing but the queue differs. */
  lemma {:induction false} OnlyQueue(s: Sys, s1: Sys)
    requires s1 == s.(queue := s1.queue)
    ensures BooksOk(s) ==> BooksOk(s1)
    ensures OrdersOk(s) ==> OrdersOk(s1)
    ensures forall priced :: Recorded(s, priced) ==> Recorded(s1, priced)
    ensures GatewayOk(s) ==> GatewayOk(s1)
    ensures TableOk(s) ==> TableOk(s1)
    ensures UiOk(s) ==> UiOk(s1)
  {
    hide Follows, Agree, Mirrors, Rows, Strip, Accounted, AllFit;
  }

  /** What a dequeue finds, and that it is a step. */
  lemma {:induction false} DequeueIsStep(s: Sys)
    requires Base(s) && Defined(s, Dequeue) && s.queue != []
    ensures var item, s1 := s.queue[0], s.(queue := s.queue[1..]);
            && SymbolOf(item) in s.books && SymbolOf(item) in s.ledgers && Due(s1, item)
            && BooksOk(s1) && OrdersOk(s1) && Recorded(s1, false)
            && Next(s, Dequeue) == Stepped(s1, item)
  {
    hide BooksOk, OrdersOk, Recorded, Answerable, QueueOk, Stepped, Next, Due;
    BaseParts(s);
    FrontIsDue(s);
    OnlyQueue(s, s.(queue := s.queue[1..]));
    NextIs(s, Dequeue);
  }

  lemma {:induction false} DequeueKeepsBase(s: Sys)
    requires Base(s) && Defined(s, Dequeue)
    ensures Base(Next(s, Dequeue))
  {
    hide Stepped, BooksOk, OrdersOk, QueueOk, Recorded, Next, Due, Defined;
    NextIs(s, Dequeue);
    if s.queue != [] {
      var item, s1 := s.queue[0], s.(queue := s.queue[1..]);
      DequeueIsStep(s);
      DequeueQueue(s, item);
      assert s1.view.Keys !! s1.kept.Keys by { ApartViews(s1); }
      StepBooks(s1, item);
      StepOrders(s1, item);
      StepRecords(s1, item, false);
    }
  }

  // ---- Messages and logons ----

  lemma {:induction false} EnqueueKeepsBase(s: Sys, item: WorkItem)
    requires Base(s) && ItemOk(s, item) && !item.NewOrder?
    ensures Base(s.(queue := s.queue + [item]))
  {
    var s' := s.(queue := s.queue + [item]);
    hide BooksOk, OrdersOk, Recorded;
    OnlyQueue(s, s');
    forall i | 0 <= i < |s'.queue|
      ensures ItemOk(s', s'.queue[i])
    {
      assert s'.queue[i] == if i < |s.queue| then s.queue[i] else item;
    }
    QueueGrows(s.queue, item, s.kept, s.dropped);
  }

  /** A replace that the gateway forwards names the side of the order. */
  lemma {:induction false} ForwardedIsOk(s: Sys, q: ReplaceReq)
    requires Recorded(s, false) && ForwardsReplace(s.gw, q)
    ensures ItemOk(s, ReplaceItem(q))
  {
  }

  lemma {:induction false} SubmitKeepsBase(s: Sys, msg: OrderMsg, session: Session)
    requires Base(s)
    ensures Base(Next(s, Submit(msg, session)))
  {
    hide BooksOk, OrdersOk, QueueOk, Recorded, Next, OnOrderMsg, Accepts;
    var m := msg.(knownSymbol := msg.symbol in s.books);
    var o := OrderFrom(s.gw, m);
    NextIs(s, Submit(msg, session));
    var s1 := TakenIn(s, m, session);
    BooksUnmoved(s, s1);
    SubmitOrders(s, m, session);
    SubmitRecords(s, m, session, false);
    OnlyQueue(s1, Next(s, Submit(msg, session)));
    SubmitQueue(s, msg, session);
  }

  lemma {:induction false} SubmitQueue(s: Sys, msg: OrderMsg, session: Session)
    requires QueueOk(s) && OrdersOk(s)
    ensures QueueOk(Next(s, Submit(msg, session)))
  {
    hide OrdersOk, Next;
    var m := msg.(knownSymbol := msg.symbol in s.books);
    var s', o := Next(s, Submit(msg, session)), OrderFrom(s.gw, m);
    NewId(s, o.id);
    NextIs(s, Submit(msg, session));
    forall i | 0 <= i < |s.queue|
      ensures ItemOk(s', s.queue[i])
    {
      assert ItemOk(s, s.queue[i]);
    }
    if Accepts(m) {
      assert ItemOk(s', NewOrder(o));
      QueueGrows(s.queue, NewOrder(o), s.kept, s.dropped);
      hide ItemOk;
      assert forall i :: 0 <= i < |s'.queue| ==> s'.queue[i] == if i < |s.queue| then s.queue[i] else NewOrder(o);
      forall i | 0 <= i < |s.queue| && s.queue[i].NewOrder?
        ensures s.queue[i].order.id != o.id
      {
        QueuedIsKept(s, i);
      }
    }
  }

  lemma {:induction false} QueuedIsKept(s: Sys, i: nat)
    requires QueueOk(s) && i < |s.queue| && s.queue[i].NewOrder?
    ensures s.queue[i].order.id in s.kept
  {
    assert ItemOk(s, s.queue[i]);
  }

  predicate Queued(queue: seq<WorkItem>, id: Id) {
    exists i :: 0 <= i < |queue| && queue[i].NewOrder? && queue[i].order.id == id
  }

  lemma {:induction false} QueueGrows(queue: seq<WorkItem>, item: WorkItem, kept: View, dropped: set<Id>)
    requires forall id :: id in kept ==> id in dropped || Queued(queue, id)
    ensures forall id :: id in kept ==> id in dropped || Queued(queue + [item], id)
    ensures item.NewOrder? ==> Queued(queue + [item], item.order.id)
  {
    var q := queue + [item];
    assert q[|queue|] == item;
    forall id | Queued(queue, id)
      ensures Queued(q, id)
    {
      var i :| 0 <= i < |queue| && queue[i].NewOrder? && queue[i].order.id == id;
      assert q[i] == queue[i];
    }
  }

  lemma {:induction false} NewId(s: Sys, id: Id)
    requires OrdersOk(s) && id > s.gw.seqNo
    ensures id !in s.kept && id !in s.view && id !in s.ghosts && id !in s.blanks
  {
  }

  lemma {:induction false} BooksUnmoved(s: Sys, s': Sys)
    requires BooksOk(s) && s' == s.(gw := s'.gw, queue := s'.queue, kept := s'.kept)
    ensures BooksOk(s')
  {
  }

  lemma {:induction false} FeedsUnmoved(s: Sys, s': Sys)
    requires s' == s.(gw := s'.gw, queue := s'.queue, kept := s'.kept)
    ensures TableOk(s) ==> TableOk(s')
    ensures UiOk(s) ==> UiOk(s')
  {
    hide Mirrors, Rows, Strip;
  }

  /** The state once the gateway has taken an order message in, its queue aside. */
  function TakenIn(s: Sys, m: OrderMsg, session: Session): Sys {
    var o := OrderFrom(s.gw, m);
    s.(gw := OnOrderMsg(s.gw, m, session), kept := if Accepts(m) then s.kept[o.id := o] else s.kept)
  }

  lemma {:induction false} SubmitOrders(s: Sys, m: OrderMsg, session: Session)
    requires OrdersOk(s)
    ensures OrdersOk(TakenIn(s, m, session))
  {
    hide AllPositive, Keyed;
    NewId(s, s.gw.seqNo + 1);
  }

  lemma {:induction false} SubmitRecords(s: Sys, m: OrderMsg, session: Session, priced: bool)
    requires OrdersOk(s) && Recorded(s, priced)
    ensures Recorded(TakenIn(s, m, session), priced)
  {
    NewId(s, s.gw.seqNo + 1);
  }

  lemma {:induction false} SubmitGateway(s: Sys, m: OrderMsg, session: Session)
    requires OrdersOk(s) && GatewayOk(s)
    ensures GatewayOk(TakenIn(s, m, session))
  {
    var o := OrderFrom(s.gw, m);
    NewId(s, o.id);
    if Accepts(m) {
      assert s.gw.active[o.id := o] == s.view + s.kept[o.id := o];
    }
  }

  lemma {:induction false} RebindFrame(g: Gw, client: string, session: Session)
    ensures var g' := Rebind(g, client, session);
            && g'.active == g.active && g'.seqNo == g.seqNo && g.sessions.Keys <= g'.sessions.Keys
            && (g.sessions.Keys <= g.active.Keys ==> g'.sessions.Keys <= g.active.Keys)
  {
  }

  /** Only sessions differ. */
  lemma {:induction false} OnlySessions(s: Sys, s': Sys)
    requires s' == s.(gw := s'.gw) && s'.gw.active == s.gw.active && s'.gw.seqNo == s.gw.seqNo
    ensures OrdersOk(s) ==> OrdersOk(s')
    ensures forall priced :: Recorded(s, priced) ==> Recorded(s', priced)
    ensures QueueOk(s) ==> QueueOk(s')
  {
    hide Queued;
    if QueueOk(s) {
      forall i | 0 <= i < |s'.queue|
        ensures ItemOk(s', s'.queue[i])
      {
        assert ItemOk(s, s.queue[i]);
      }
    }
  }

  // ---- Every action ----

  /** Every defined action keeps the books and their histories, the queue, and the names in
      the gateway's records. */
  lemma {:induction false} NextKeepsBase(s: Sys, a: Action)
    requires Base(s) && Defined(s, a)
    ensures Base(Next(s, a))
  {
    hide BooksOk, OrdersOk, QueueOk, Recorded, Next, Stepped, OnOrderMsg, Rebind, Defined, ItemOk, ForwardsReplace,
         ForwardsCancel;
    NextIs(s, a);
    match a
    case Submit(msg, session) => SubmitKeepsBase(s, msg, session);
    case AskCancel(c) =>
      if ForwardsCancel(s.gw, c) {
        assert ItemOk(s, CancelItem(c)) by { CancelIsOk(s, c); }
        EnqueueKeepsBase(s, CancelItem(c));
      }
    case AskReplace(q) =>
      if ForwardsReplace(s.gw, q) {
        ForwardedIsOk(s, q);
        EnqueueKeepsBase(s, ReplaceItem(q));
      }
    case LogOn(client, session) =>
      RebindFrame(s.gw, client, session);
      OnlySessions(s, Next(s, a));
      BooksUnmoved(s, Next(s, a));
    case Dequeue => DequeueKeepsBase(s);
  }

  lemma {:induction false} CancelIsOk(s: Sys, c: CancelReq)
    ensures ItemOk(s, CancelItem(c))
  {
  }

  /** Every told action keeps the prices in the records and the table, and the mirror if it was right. */
  lemma {:induction false} NextKeepsPublished(s: Sys, a: Action)
    requires Published(s) && Told(s, a)
    ensures Published(Next(s, a))
    ensures UiOk(s) ==> UiOk(Next(s, a))
  {
    hide Base, Recorded, TableOk, UiOk, Next, Defined, Announced;
    NextKeepsBase(s, a);
    if a.Dequeue? && s.queue != [] {
      DequeueTold(s);
    } else {
      NextFrame(s, a);
      FeedsUnmoved(s, Next(s, a));
      BaseParts(s);
      MessageRecords(s, a);
    }
  }

  lemma {:induction false} DequeueTold(s: Sys)
    requires Published(s) && Told(s, Dequeue) && s.queue != []
    ensures Recorded(Next(s, Dequeue), true) && TableOk(Next(s, Dequeue))
    ensures UiOk(s) ==> UiOk(Next(s, Dequeue))
  {
    hide Base, Recorded, TableOk, UiOk, Next, Stepped, Defined, Announced, BooksOk, OrdersOk, Due;
    var item, s1 := s.queue[0], s.(queue := s.queue[1..]);
    DequeueIsStep(s);
    OnlyQueue(s, s1);
    StepRecords(s1, item, true);
    StepFeeds(s1, item);
  }

  lemma {:induction false} MessageRecords(s: Sys, a: Action)
    requires OrdersOk(s) && Recorded(s, true) && (a.Dequeue? ==> s.queue == [])
    ensures Recorded(Next(s, a), true)
  {
    hide OrdersOk, Recorded, Next, OnOrderMsg, Rebind, Accepts, ForwardsReplace, ForwardsCancel, Stepped;
    NextIs(s, a);
    match a
    case Submit(msg, session) =>
      var m := msg.(knownSymbol := msg.symbol in s.books);
      SubmitRecords(s, m, session, true);
      OnlyQueue(TakenIn(s, m, session), Next(s, a));
    case LogOn(client, session) =>
      RebindFrame(s.gw, client, session);
      OnlySessions(s, Next(s, a));
    case _ => OnlyQueue(s, Next(s, a));
  }

  /** Every proper action keeps the gateway's records equal to the resting and the kept orders. */
  lemma {:induction false} NextKeepsGateway(s: Sys, a: Action)
    requires Base(s) && GatewayOk(s) && Proper(s, a)
    ensures GatewayOk(Next(s, a))
  {
    hide Base, Next, Stepped, OnOrderMsg, Rebind, Accepts, ForwardsReplace, ForwardsCancel, BooksOk, OrdersOk, QueueOk,
         Recorded, GatewayOk, Due, Untouched, Defined;
    BaseParts(s);
    NextIs(s, a);
    match a
    case Submit(msg, session) =>
      var m := msg.(knownSymbol := msg.symbol in s.books);
      SubmitGateway(s, m, session);
      OnlyQueue(TakenIn(s, m, session), Next(s, a));
    case LogOn(client, session) =>
      RebindFrame(s.gw, client, session);
      GatewayRebound(s, Next(s, a));
    case Dequeue =>
      if s.queue != [] {
        DequeueIsStep(s);
        OnlyQueue(s, s.(queue := s.queue[1..]));
        StepGateway(s.(queue := s.queue[1..]), s.queue[0]);
      }
    case _ => OnlyQueue(s, Next(s, a));
  }

  lemma {:induction false} GatewayRebound(s: Sys, s': Sys)
    requires GatewayOk(s) && s' == s.(gw := s'.gw) && s'.gw.active == s.gw.active
    requires s.gw.sessions.Keys <= s'.gw.sessions.Keys
    requires s.gw.sessions.Keys <= s.gw.active.Keys ==> s'.gw.sessions.Keys <= s.gw.active.Keys
    ensures GatewayOk(s')
  {
  }

  /** Exact records name their orders, price included. */
  lemma {:induction false} InvIsPublished(s: Sys)
    requires Inv(s)
    ensures Published(s)
  {
    hide Base, TableOk, UiOk;
  }

  /** What touches no order without a session is told. */
  lemma {:induction false} ProperIsTold(s: Sys, a: Action)
    requires Base(s) && GatewayOk(s) && Proper(s, a)
    ensures Told(s, a)
  {
    hide Base, Untouched, Announced, Valid, Shows, Keyed, BooksOk, OrdersOk, QueueOk, Recorded, Acceptable;
    if a.Dequeue? && s.queue != [] {
      BaseParts(s);
      FrontIsDue(s);
      DueIsAcceptable(s, s.queue[0]);
      UntouchedIsAnnounced(s.gw, s.view, s.kept, SymbolOf(s.queue[0]), s.books[SymbolOf(s.queue[0])], s.queue[0]);
    }
  }

  lemma {:induction false} UntouchedIsAnnounced(g: Gw, v: View, kept: View, symbol: Symbol, b: Book, item: WorkItem)
    requires Agree(g, v, kept) && Untouched(g, b, item) && Valid(symbol, b) && Fits(v, symbol, b) && Keyed(v)
    ensures Announced(g, b, item)
  {
    hide Valid, Shows, Keyed, Present, Lookup, Met, Killed, Add, Replace;
  }

  /** Every action that stays defined and touches no order without a session keeps every copy
      in agreement. */
  lemma {:induction false} NextKeepsInv(s: Sys, a: Action)
    requires Inv(s) && Proper(s, a)
    ensures Inv(Next(s, a))
  {
    hide Base, GatewayOk, TableOk, UiOk, Recorded, Next, Proper, Told;
    InvIsPublished(s);
    ProperIsTold(s, a);
    NextKeepsPublished(s, a);
    NextKeepsGateway(s, a);
  }

  lemma {:induction false} ExecKeepsBase(s: Sys, run: seq<Action>)
    requires Base(s) && AllDefined(s, run)
    ensures Base(Exec(s, run))
    decreases |run|
  {
    hide Base, Next, Defined;
    if run != [] {
      NextKeepsBase(s, run[0]);
      ExecKeepsBase(Next(s, run[0]), run[1..]);
    }
  }

  lemma {:induction false} ExecKeepsPublished(s: Sys, run: seq<Action>)
    requires Published(s) && AllTold(s, run)
    ensures Published(Exec(s, run))
    ensures UiOk(s) ==> UiOk(Exec(s, run))
    decreases |run|
  {
    hide Published, UiOk, Next, Told;
    if run != [] {
      NextKeepsPublished(s, run[0]);
      ExecKeepsPublished(Next(s, run[0]), run[1..]);
    }
  }

  lemma {:induction false} ExecKeepsInv(s: Sys, run: seq<Action>)
    requires Inv(s) && AllProper(s, run)
    ensures Inv(Exec(s, run))
    decreases |run|
  {
    hide Inv, Next, Proper;
    if run != [] {
      NextKeepsInv(s, run[0]);
      ExecKeepsInv(Next(s, run[0]), run[1..]);
    }
  }
}
