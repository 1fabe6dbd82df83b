/** The objects together: one dequeued item carried through the engine, the gateway, the
    persistence queue and the market-data mirror, as the system model says. */
module Exchange {
  import opened Orders
  import opened Books
  import opened Engine
  import opened Views
  import opened Gateway
  import opened MessageFactory
  import opened Publishing
  import opened Mirror
  import opened System
  import opened IndexedBook
  import opened EngineThread
  import opened GatewayObject
  import opened PersistenceThread
  import opened MirrorServer

  /** Hand each callback to the gateway, in order, and collect what it sends. */
  method Deliver(
    g: FixGateway, calls: seq<Callback>) returns (packets: seq<Packet>, events: seq<DbEvent>, reports: seq<Report>)
    requires g.Valid()
    modifies g
    ensures g.Valid()
    ensures Out(g.State(), packets, events) == NotifyAll(old(g.State()), calls)
    ensures reports == AllReports(old(g.State()), calls)
  {
    hide Notify, Reports;
    packets, events, reports := [], [], [];
    NoCalls(g.State(), map[]);
    assert calls[..0] == [];
    for i := 0 to |calls|
      invariant g.Valid() && Out(g.State(), packets, events) == NotifyAll(old(g.State()), calls[..i])
      invariant reports == AllReports(old(g.State()), calls[..i])
    {
      ghost var before := g.State();
      var ps, es, rs := DeliverOne(g, calls[i]);
      assert calls[..i + 1] == calls[..i] + [calls[i]];
      NotifyAppend(old(g.State()), calls[..i], [calls[i]]);
      ReportsAppend(old(g.State()), calls[..i], calls[i]);
      NotifyOne(before, calls[i]);
      packets, events, reports := packets + ps, events + es, reports + rs;
    }
    assert calls[..|calls|] == calls;
  }

  method DeliverOne(
    g: FixGateway, c: Callback) returns (packets: seq<Packet>, events: seq<DbEvent>, reports: seq<Report>)
    requires g.Valid()
    modifies g
    ensures g.Valid()
    ensures Out(g.State(), packets, events) == Notify(old(g.State()), c)
    ensures reports == Reports(old(g.State()), c)
  {
    match c {
      case OnFill(t) => packets, events, reports := g.OnFillCallback(t);
      case OnTifCancel(o) =>
        reports := g.OnTifCancelCallback(o);
        packets, events := [], [];
      case OnRested(o, leaves) =>
        packets, events := g.OnRestedCallback(o, leaves);
        reports := [];
      case OnCancel(q, found) => packets, events, reports := g.OnCancelCallback(q, found);
      case OnReplace(q, found, leaves) => packets, events, reports := g.OnReplaceCallback(q, found, leaves);
    }
  }

  method PushAll(p: PersistenceLayer, events: seq<DbEvent>)
    requires p.Ok()
    modifies p
    ensures p.Ok() && p.pushed == old(p.pushed) + events && p.base == old(p.base)
  {
    for i := 0 to |events|
      invariant p.Ok() && p.pushed == old(p.pushed) + events[..i] && p.base == old(p.base)
    {
      p.Push(events[i]);
    }
    assert events[..|events|] == events;
  }

  method ApplyAll(md: MarketData, packets: seq<Packet>)
    modifies md
    ensures md.View() == ApplyMds(old(md.View()), packets)
  {
    for i := 0 to |packets|
      invariant ApplyMds(old(md.View()), packets) == ApplyMds(md.View(), packets[i..])
    {
      md.ApplyPacket(packets[i]);
    }
  }

  /** The objects are in the state that the model describes. */
  ghost predicate Implements(s: Sys, e: MatchingEngine, g: FixGateway, p: PersistenceLayer, md: MarketData)
    reads e, e.books.Values, g, p, md
  {
    && e.Ok() && g.Valid() && p.Ok()
    && e.Contents() == s.books && e.queue == s.queue && g.State() == s.gw
    && p.base == s.table0 && p.pushed == s.log && md.View() == s.Ui()
  }

  /** In every reachable state, what the engine takes from the queue keeps its books valid. */
  lemma {:induction false} FrontIsFine(s: Sys)
    requires Base(s) && Defined(s, Dequeue) && s.queue != []
    ensures Fine(s.books, s.queue[0]) && SymbolOf(s.queue[0]) in s.ledgers
  {
    hide Base, BooksOk, OrdersOk, QueueOk, Recorded, Present, Lookup, Valid, Shows, Keyed, ItemOk, Clashes, Answerable;
    BaseParts(s);
    FrontIsDue(s);
    var item, sym := s.queue[0], SymbolOf(s.queue[0]);
    DueIsAcceptable(s, item);
    match item
    case NewOrder(o) =>
      FitsPresence(s.view, sym, s.books[sym], o.id);
      AddKeepsValidIff(sym, s.books[sym], o);
    case CancelItem(_) =>
    case ReplaceItem(q) => LookupFinds(sym, s.books[sym], q.id);
  }

  lemma {:induction false} DequeuedIs(s: Sys)
    requires s.queue != [] && SymbolOf(s.queue[0]) in s.books && SymbolOf(s.queue[0]) in s.ledgers
    ensures var s', item := Next(s, Dequeue), s.queue[0];
            var step := Process(s.books[SymbolOf(item)], item);
            var out := NotifyAll(s.gw, step.calls);
            && s'.books == s.books[SymbolOf(item) := step.book] && s'.gw == out.gw && s'.queue == s.queue[1..]
            && s'.log == s.log + out.events && s'.table0 == s.table0 && s'.Ui() == ApplyMds(s.Ui(), out.packets)
  {
    hide Process, NotifyAll, Stepped, ApplyMds;
    var s1, item := s.(queue := s.queue[1..]), s.queue[0];
    SteppedFrame(s1, item);
    ApplyMdsAppend(s.ui0, s.feed, NotifyAll(s.gw, Process(s.books[SymbolOf(item)], item).calls).packets);
  }

  lemma {:induction false} EngineKeys(e: MatchingEngine)
    requires e.Ok()
    ensures e.Contents().Keys == e.books.Keys
  {
  }

  /** One dequeued item, with everything it sets in motion, takes the objects where the model goes. */
  method HandleNext(ghost s: Sys, e: MatchingEngine, g: FixGateway, p: PersistenceLayer, md: MarketData)
    requires Implements(s, e, g, p, md) && Base(s) && Defined(s, Dequeue)
    modifies e, e.books.Values, g, p, md
    ensures Implements(Next(s, Dequeue), e, g, p, md) && e.books == old(e.books)
  {
    hide Base, Suits, Process, Stepped, Next, MatchingEngine.Ok, MatchingEngine.Sound, MatchingEngine.Contents,
         FixGateway.Valid, PersistenceLayer.Ok, ApplyMds, Answerable, NotifyAll, Ladders, Abs;
    if e.queue == [] {
      NextIs(s, Dequeue);
      return;
    }
    FrontIsFine(s);
    DequeuedIs(s);
    EngineKeys(e);
    var item := e.Take();
    var calls := e.HandleItem(item);
    var packets, events, reports := Deliver(g, calls);
    PushAll(p, events);
    ApplyAll(md, packets);
  }

  /** An order message, likewise. */
  method HandleOrder(
    ghost s: Sys, e: MatchingEngine, g: FixGateway, p: PersistenceLayer, md: MarketData,
    msg: OrderMsg, session: Session)
    requires Implements(s, e, g, p, md)
    modifies e`queue, g
    ensures Implements(Next(s, Submit(msg, session)), e, g, p, md) && e.books == old(e.books)
  {
    hide MatchingEngine.Ok, MatchingEngine.Sound, MatchingEngine.Contents, PersistenceLayer.Ok, ApplyMds,
         FixGateway.Valid, Next, OnOrderMsg, Accepts;
    EngineKeys(e);
    NextIs(s, Submit(msg, session));
    var submitted := g.OnNewOrder(msg.(knownSymbol := msg.symbol in e.books), session);
    if submitted.Some? {
      e.Enqueue(NewOrder(submitted.value));
    }
  }

  /** A cancel request. */
  method HandleCancel(ghost s: Sys, e: MatchingEngine, g: FixGateway, p: PersistenceLayer, md: MarketData, c: CancelReq)
    requires Implements(s, e, g, p, md)
    modifies e`queue
    ensures Implements(Next(s, AskCancel(c)), e, g, p, md) && e.books == old(e.books)
  {
    hide MatchingEngine.Ok, MatchingEngine.Sound, MatchingEngine.Contents, PersistenceLayer.Ok, ApplyMds,
         FixGateway.Valid, Stepped, ForwardsCancel;
    var item := g.OnCancelRequest(c);
    if item.Some? {
      e.Enqueue(item.value);
    }
  }

  /** A replace request. */
  method HandleReplace(
    ghost s: Sys, e: MatchingEngine, g: FixGateway, p: PersistenceLayer, md: MarketData, q: ReplaceReq)
    requires Implements(s, e, g, p, md)
    modifies e`queue
    ensures Implements(Next(s, AskReplace(q)), e, g, p, md) && e.books == old(e.books)
  {
    hide MatchingEngine.Ok, MatchingEngine.Sound, MatchingEngine.Contents, PersistenceLayer.Ok, ApplyMds,
         FixGateway.Valid, Stepped, ForwardsReplace;
    var item := g.OnReplaceRequest(q);
    if item.Some? {
      e.Enqueue(item.value);
    }
  }

  /** A logon. */
  method HandleLogOn(
    ghost s: Sys, e: MatchingEngine, g: FixGateway, p: PersistenceLayer, md: MarketData,
    client: string, session: Session)
    requires Implements(s, e, g, p, md)
    modifies g
    ensures Implements(Next(s, LogOn(client, session)), e, g, p, md) && e.books == old(e.books)
  {
    hide MatchingEngine.Ok, MatchingEngine.Sound, MatchingEngine.Contents, PersistenceLayer.Ok, ApplyMds,
         FixGateway.Valid, Stepped, Rebind;
    var reports := g.OnLogon(client, session);
  }

  /** A whole run: the objects end where the model ends, so what holds of the model after
      every run holds of them. */
  method Perform(
    ghost s: Sys, e: MatchingEngine, g: FixGateway, p: PersistenceLayer, md: MarketData, run: seq<Action>)
    requires Implements(s, e, g, p, md) && Base(s) && AllDefined(s, run)
    modifies e, e.books.Values, g, p, md
    ensures Implements(Exec(s, run), e, g, p, md) && Base(Exec(s, run))
  {
    hide Base, Defined, Next, Implements;
    ghost var now := s;
    for i := 0 to |run|
      invariant Implements(now, e, g, p, md) && Base(now) && AllDefined(now, run[i..]) && e.books == old(e.books)
      invariant Exec(s, run) == Exec(now, run[i..])
    {
      var a := run[i];
      assert run[i..][0] == a && run[i..][1..] == run[i + 1..];
      NextKeepsBase(now, a);
      match a {
        case Submit(msg, session) => HandleOrder(now, e, g, p, md, msg, session);
        case AskCancel(c) => HandleCancel(now, e, g, p, md, c);
        case AskReplace(q) => HandleReplace(now, e, g, p, md, q);
        case LogOn(client, session) => HandleLogOn(now, e, g, p, md, client, session);
        case Dequeue => HandleNext(now, e, g, p, md);
      }
      now := Next(now, a);
    }
  }
}
