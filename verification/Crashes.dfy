/** What a crash can leave in the database: every prefix of the event stream, even one that
    cuts an engine step in half. */
module Crashes {
  import opened Options
  import opened Orders
  import opened Matching
  import opened Books
  import opened Ledger
  import opened Engine
  import opened Views
  import opened Gateway
  import opened Publishing
  import opened Leftovers
  import opened Announcing
  import opened Mirror
  import opened Persistence
  import opened System

  /** Orders that recovery can put back into books for these symbols. */
  ghost predicate Restorable(v: View, symbols: set<Symbol>) {
    Safe(v) && forall id :: id in v ==> id >= 1 && v[id].symbol in symbols
  }

  /** Whatever prefix of the event stream reached the database, the orders it would restore are restorable. */
  ghost predicate CrashSafe(t: Table, log: seq<DbEvent>, symbols: set<Symbol>) {
    forall k :: 0 <= k <= |log| ==> Restorable(Recovered(ApplyEvents(t, log[..k])), symbols)
  }

  ghost predicate AllCutsSafe(s: Sys) {
    CrashSafe(s.table0, s.log, s.books.Keys)
  }

  // ---- Between steps ----

  /** i buys and j sells the same thing. */
  predicate Opposed(p: View, i: Id, j: Id)
    requires i in p && j in p
  {
    p[i].symbol == p[j].symbol && p[i].side.Buy? && p[j].side.Sell?
  }

  /** No published order that was silently filled meets another published order at a price
      where they would trade. */
  ghost predicate GhostsUncrossed(v: View, ghosts: View) {
    var p := v + ghosts;
    forall i, j :: i in p && j in p && (i in ghosts || j in ghosts) && Opposed(p, i, j) ==> p[i].price < p[j].price
  }

  lemma {:induction false} RowsSafeIff(p: View)
    requires AllPositive(p)
    ensures Safe(Recovered(Rows(p))) <==>
            forall i, j :: i in p && j in p && Opposed(p, i, j) ==> p[i].price < p[j].price
    ensures Recovered(Rows(p)).Keys == p.Keys && forall id :: id in p ==> Recovered(Rows(p))[id].symbol == p[id].symbol
  {
    var v := Recovered(Rows(p));
    assert v.Keys == p.Keys;
    assert forall id :: id in p ==> v[id] == Loaded(id, RowOf(p[id]));
    hide Recovered, Rows;
    if Safe(v) {
      forall i, j | i in p && j in p && Opposed(p, i, j)
        ensures p[i].price < p[j].price
      {
        assert v[i].price < v[j].price;
      }
    }
  }

  /** In every reachable state, what is in the table once everything is flushed can be
      restored if and only if no silently filled order meets an order it would trade with. */
  lemma {:induction false} RecoverableIff(s: Sys)
    requires BooksOk(s) && OrdersOk(s)
    ensures Restorable(Recovered(Rows(s.view + s.ghosts)), s.books.Keys) <==> GhostsUncrossed(s.view, s.ghosts)
  {
    hide Accounted, AllFit, Rows, Recovered;
    BooksAreSafe(s.view, s.books);
    RowsSafeIff(s.view + s.ghosts);
    hide AllPositive, Safe;
  }

  // ---- The step that crosses them ----

  function SideOf(item: WorkItem): Side
    requires !item.CancelItem?
  {
    if item.NewOrder? then item.order.side else item.replace.side
  }

  function PriceOf(item: WorkItem): Price
    requires !item.CancelItem?
  {
    if item.NewOrder? then item.order.price else item.replace.price
  }

  /** Something of the order will rest once the item is handled. */
  predicate ComesToRest(b: Book, item: WorkItem) {
    match item
    case NewOrder(o) => o.typ.Limit? && o.tif.Gtc? && CrossingTotal(o, b.On(o.side.Opposite())) < o.qty
    case CancelItem(_) => false
    case ReplaceItem(q) => Lookup(b, q.id).Some? && q.qty >= 1 && !FillsOnReentry(b, q)
  }

  /** At this price the side would trade with a silently filled order. */
  predicate MetAt(ghosts: View, symbol: Symbol, side: Side, price: Price) {
    exists id :: id in ghosts && ghosts[id].symbol == symbol && ghosts[id].side == side.Opposite()
                 && (if side.Buy? then price >= ghosts[id].price else price <= ghosts[id].price)
  }

  /** The item about to be handled puts an order to rest at a price that meets a silently filled one. */
  predicate MeetsGhost(s: Sys, a: Action) {
    && a.Dequeue? && s.queue != [] && SymbolOf(s.queue[0]) in s.books
    && ComesToRest(s.books[SymbolOf(s.queue[0])], s.queue[0])
    && MetAt(s.ghosts, SymbolOf(s.queue[0]), SideOf(s.queue[0]), PriceOf(s.queue[0]))
  }

  lemma {:induction false} NewOrderRests(symbol: Symbol, b: Book, o: Order)
    requires Valid(symbol, b) && o.symbol == symbol && o.qty >= 1 && !Present(b, o.id)
    ensures var b' := Process(b, NewOrder(o)).book;
            && (Present(b', o.id) <==> ComesToRest(b, NewOrder(o)))
            && (Present(b', o.id) ==> exists n :: Lookup(b', o.id) == Some(o.(leaves := n)))
  {
    hide Valid, Add, Present, Lookup, Depth, Available, CrossingTotal;
    AddFills(symbol, b, o);
    AddPresence(symbol, b, o);
    if o.typ.Limit? {
      AvailableIsDepth(o, b.On(o.side.Opposite()));
    }
  }

  lemma {:induction false} ReplacedRests(symbol: Symbol, b: Book, v: View, q: ReplaceReq)
    requires Valid(symbol, b) && Fits(v, symbol, b) && Keyed(v) && Honoured(b, q)
    ensures var b' := Process(b, ReplaceItem(q)).book;
            && (Present(b', q.id) <==> ComesToRest(b, ReplaceItem(q)))
            && (Present(b', q.id) ==>
                  && Lookup(b, q.id).Some?
                  && exists n :: Lookup(b', q.id)
                                 == Some(Lookup(b, q.id).value.(price := q.price, qty := q.qty, leaves := n)))
  {
    hide Valid, Shows, Keyed, Present, Lookup, Add, Cancel, FillsOnReentry, Zeroes;
    LookupFinds(symbol, b, q.id);
    ReplaceKeepsValidIff(symbol, b, q.id, q.price, q.qty);
    if Zeroes(b, q) {
      ZeroIsCancel(symbol, b, q);
      NoUnits(b, q);
    } else if Lookup(b, q.id).Some? {
      var o := Lookup(b, q.id).value;
      if InPlace(o, q.price, q.qty) {
        ResizedLookup(symbol, b, o, q.qty);
        NotFilled(symbol, b, o, q);
        LookupFinds(symbol, Process(b, ReplaceItem(q)).book, q.id);
        assert o.(qty := q.qty, leaves := q.qty) == o.(price := q.price, qty := q.qty, leaves := q.qty);
      } else {
        ReentryFacts(symbol, b, v, o, q);
        CancelKeepsValid(symbol, b, q.id);
        AddPresence(symbol, Cancel(b, q.id), o.(price := q.price, qty := q.qty));
      }
    }
  }

  lemma {:induction false} NoUnits(b: Book, q: ReplaceReq)
    requires Zeroes(b, q)
    ensures q.qty == 0
  {
  }

  /** The order an item is about rests after it at the price it gives, or else as it was or not at all. */
  lemma {:induction false} WhereItRests(v: View, symbol: Symbol, b: Book, item: WorkItem)
    requires Valid(symbol, b) && Fits(v, symbol, b) && Keyed(v) && Acceptable(symbol, b, v, item)
    requires item.ReplaceItem? && item.replace.id in v ==> v[item.replace.id].side == item.replace.side
    ensures var v', x := Effects(v, Process(b, item).calls), IdOf(item);
            if ComesToRest(b, item)
            then x in v' && v'[x].symbol == symbol && v'[x].side == SideOf(item) && v'[x].price == PriceOf(item)
            else x in v' ==> x in v && v'[x] == v[x]
  {
    hide Valid, Shows, Keyed, Present, Lookup, Process, Effects, ComesToRest;
    var v', x, b' := Effects(v, Process(b, item).calls), IdOf(item), Process(b, item).book;
    ProcessFits(v, symbol, b, item);
    FitsPresence(v, symbol, b, x);
    FitsPresence(v', symbol, b', x);
    match item
    case NewOrder(o) => NewOrderRests(symbol, b, o);
    case CancelItem(c) => CancelRests(symbol, b, c);
    case ReplaceItem(q) => ReplacedRests(symbol, b, v, q);
  }

  lemma {:induction false} CancelRests(symbol: Symbol, b: Book, c: CancelReq)
    requires Valid(symbol, b)
    ensures !ComesToRest(b, CancelItem(c)) && !Present(Process(b, CancelItem(c)).book, c.id)
  {
    hide Valid, Present;
    CancelKeepsValid(symbol, b, c.id);
  }

  predicate Unmoved(p: View, p': View, id: Id) {
    id in p && id in p' && p'[id].symbol == p[id].symbol && p'[id].side == p[id].side && p'[id].price == p[id].price
  }

  /** No published order moves but x, if x comes to rest, and becomes a ghost but x, if it does not. */
  ghost predicate OnlyMoves(v: View, ghosts: View, v': View, g': View, x: Id, rests: bool) {
    && (forall id :: id in v' + g' ==> Unmoved(v + ghosts, v' + g', id) || (id == x && rests))
    && (forall id :: id in g' ==> id in ghosts || (id in v && id == x && !rests))
    && (forall id :: id in ghosts ==> id in g' && g'[id] == ghosts[id])
  }

  /** A step moves no published order but the one that comes to rest. */
  lemma {:induction false} StepMoves(v: View, ghosts: View, symbol: Symbol, b: Book, item: WorkItem)
    requires Valid(symbol, b) && Fits(v, symbol, b) && Keyed(v) && Acceptable(symbol, b, v, item)
    requires item.ReplaceItem? && item.replace.id in v ==> v[item.replace.id].side == item.replace.side
    requires v.Keys !! ghosts.Keys && (item.NewOrder? ==> item.order.id !in ghosts)
    ensures var v', g', x := Effects(v, Process(b, item).calls), GhostsAfter(b, item, v, ghosts), IdOf(item);
            && OnlyMoves(v, ghosts, v', g', x, ComesToRest(b, item))
            && (ComesToRest(b, item) ==>
                  && x in v' && x !in g' && v'[x].symbol == symbol
                  && v'[x].side == SideOf(item) && v'[x].price == PriceOf(item))
  {
    hide Valid, Shows, Keyed, Process, Effects, ComesToRest, Acceptable, FillsOnReentry;
    var v', g', x := Effects(v, Process(b, item).calls), GhostsAfter(b, item, v, ghosts), IdOf(item);
    WhereItRests(v, symbol, b, item);
    StepKeeps(v, b, item);
    LeavesTheView(v, symbol, b, item);
    FilledStays(b, item);
  }

  lemma {:induction false} FilledStays(b: Book, item: WorkItem)
    ensures item.ReplaceItem? && FillsOnReentry(b, item.replace) ==> !ComesToRest(b, item)
  {
  }

  /** A step lets a silently filled order and another published one cross if and only if it
      puts an order to rest where it meets one. A fill on re-entry itself never does. */
  lemma {:induction false} StepMeetsIff(s: Sys, item: WorkItem)
    requires BooksOk(s) && OrdersOk(s) && Due(s, item) && GhostsUncrossed(s.view, s.ghosts)
    requires SymbolOf(item) in s.books && SymbolOf(item) in s.ledgers
    ensures GhostsUncrossed(Stepped(s, item).view, Stepped(s, item).ghosts) <==>
            !(ComesToRest(s.books[SymbolOf(item)], item)
              && MetAt(s.ghosts, SymbolOf(item), SideOf(item), PriceOf(item)))
  {
    hide BooksOk, OrdersOk, Process, NotifyAll, Effects, KeptAfter, GhostsAfter, BlanksAfter, NewEntries, Drops,
         ComesToRest, Valid, Shows, Keyed, AllPositive, Acceptable, Answerable, GhostsUncrossed, MetAt,
         OnlyMoves;
    ApartViews(s);
    DueIsAcceptable(s, item);
    StepMoves(s.view, s.ghosts, SymbolOf(item), s.books[SymbolOf(item)], item);
    ViewUncrossed(s);
    CancelsNever(s.books[SymbolOf(item)], item);
    var b, v, g := s.books[SymbolOf(item)], s.view, s.ghosts;
    var v', g' := Effects(v, Process(b, item).calls), GhostsAfter(b, item, v, g);
    CrossIff(v, g, v', g', IdOf(item), ComesToRest(b, item), SymbolOf(item),
      if item.CancelItem? then Buy else SideOf(item), if item.CancelItem? then 0 else PriceOf(item));
    assert Stepped(s, item).view == v' && Stepped(s, item).ghosts == g';
  }

  lemma {:induction false} CancelsNever(b: Book, item: WorkItem)
    ensures ComesToRest(b, item) ==> !item.CancelItem?
  {
  }

  lemma {:induction false} ViewUncrossed(s: Sys)
    requires BooksOk(s)
    ensures forall i, j :: i in s.view && j in s.view && Opposed(s.view, i, j) ==> s.view[i].price < s.view[j].price
  {
    hide Accounted, AllFit;
    BooksAreSafe(s.view, s.books);
  }

  lemma {:induction false} CrossIff(
    v: View, ghosts: View, v': View, g': View, x: Id, rests: bool, symbol: Symbol, side: Side, price: Price)
    requires GhostsUncrossed(v, ghosts) && v.Keys !! ghosts.Keys
    requires forall i, j :: i in v && j in v && Opposed(v, i, j) ==> v[i].price < v[j].price
    requires OnlyMoves(v, ghosts, v', g', x, rests)
    requires rests ==> x in v' && x !in g' && v'[x].symbol == symbol && v'[x].side == side && v'[x].price == price
    ensures GhostsUncrossed(v', g') <==> !(rests && MetAt(ghosts, symbol, side, price))
  {
    var p, p' := v + ghosts, v' + g';
    if rests && MetAt(ghosts, symbol, side, price) {
      var id :| id in ghosts && ghosts[id].symbol == symbol && ghosts[id].side == side.Opposite()
                && (if side.Buy? then price >= ghosts[id].price else price <= ghosts[id].price);
      assert p'[id] == ghosts[id] && p'[x] == v'[x];
      assert if side.Buy? then Opposed(p', x, id) else Opposed(p', id, x);
    } else {
      forall i, j | i in p' && j in p' && (i in g' || j in g') && Opposed(p', i, j)
        ensures p'[i].price < p'[j].price
      {
        if rests && (i == x || j == x) {
          var other := if i == x then j else i;
          assert other in ghosts && p'[other] == ghosts[other];
          assert p'[x] == v'[x];
        } else {
          assert Unmoved(p, p', i) && Unmoved(p, p', j) && Opposed(p, i, j);
          if i !in ghosts && j !in ghosts {
            assert p[i] == v[i] && p[j] == v[j] && Opposed(v, i, j);
          }
        }
      }
    }
  }

  // ---- Inside a step ----

  lemma {:induction false} EntryCut(g: Gw, v: View, ghosts: View, sym: Symbol, b: Book, o: Order, j: nat)
    requires Valid(sym, b) && Fits(v, sym, b) && Keyed(v) && v.Keys !! ghosts.Keys && AllPositive(v + ghosts)
    requires j <= |Add(b, o).trades|
    ensures Shrunk(PublishAll(g, v + ghosts, Fills(Add(b, o).trades)[..j]), v + ghosts)
  {
    hide Shows, Keyed, AllPositive, Shrunk, PublishAll, Valid, Sweepable;
    var side := o.side.Opposite();
    BookIsSweepable(sym, b, side);
    FacingSides(v, sym, b, side, {});
    SweepPublishes(g, v, ghosts, sym, b.On(o.side), b.On(side), {}, o.(leaves := o.qty));
  }

  lemma {:induction false} ReentryCut(
    g: Gw, v: View, ghosts: View, sym: Symbol, b: Book, o: Order, o1: Order, j: nat)
    requires Valid(sym, b) && Fits(v, sym, b) && Keyed(v) && v.Keys !! ghosts.Keys && AllPositive(v + ghosts)
    requires Lookup(b, o.id) == Some(o) && Present(b, o.id) && o1.side == o.side
    requires j <= |Add(Cancel(b, o.id), o1).trades|
    ensures Shrunk(PublishAll(g, v + ghosts, Fills(Add(Cancel(b, o.id), o1).trades)[..j]), v + ghosts)
  {
    hide Shows, Keyed, AllPositive, Shrunk, PublishAll, Valid, Cancel, Sweepable, Lookup, Present;
    var b1, side := Cancel(b, o.id), o.side.Opposite();
    ReentrySides(v, sym, b, o, o.id);
    SweepPublishes(g, v, ghosts, sym, b1.On(o.side), b1.On(side), {o.id}, o1.(leaves := o1.qty));
  }

  /** Before a step's last callback, what is published is what was, with some makers reduced. */
  lemma {:induction false} CutIsShrunk(s: Sys, item: WorkItem, j: nat)
    requires BooksOk(s) && OrdersOk(s) && Due(s, item)
    requires j < |Process(s.books[SymbolOf(item)], item).calls|
    ensures var cs := Process(s.books[SymbolOf(item)], item).calls;
            Shrunk(PublishAll(s.gw, s.view + s.ghosts, cs[..j]), s.view + s.ghosts)
  {
    hide BooksOk, OrdersOk, Shows, Keyed, AllPositive, Shrunk, PublishAll, Valid, Add, Cancel, Lookup, Present, Killed,
         ItemOk, Answerable, Acceptable;
    var sym := SymbolOf(item);
    var b, p, cs := s.books[sym], s.view + s.ghosts, Process(s.books[sym], item).calls;
    ApartViews(s);
    ShrunkSame(p);
    NoCalls(s.gw, p);
    DueIsAcceptable(s, item);
    match item
    case NewOrder(o) =>
      if Killed(b, o) {
        assert cs[..j] == [];
      } else {
        assert cs[..j] == Fills(Add(b, o).trades)[..j];
        EntryCut(s.gw, s.view, s.ghosts, sym, b, o, j);
      }
    case CancelItem(_) =>
      assert cs[..j] == [];
    case ReplaceItem(q) =>
      LookupFinds(sym, b, q.id);
      var fills := Fills(Replace(b, q.id, q.price, q.qty).trades);
      assert cs[..j] == fills[..j];
      if Lookup(b, q.id).Some? && !InPlace(Lookup(b, q.id).value, q.price, q.qty) {
        var o := Lookup(b, q.id).value;
        ReentryCut(s.gw, s.view, s.ghosts, sym, b, o, o.(price := q.price, qty := q.qty), j);
      } else {
        assert fills[..j] == [];
      }
  }

  /** A crash in the middle of a step's events leaves something restorable, or what the
      completed step has published. */
  lemma {:induction false} StepCut(s: Sys, item: WorkItem, k: nat)
    requires BooksOk(s) && OrdersOk(s) && Recorded(s, true) && GhostsUncrossed(s.view, s.ghosts) && Due(s, item)
    requires SymbolOf(item) in s.books && SymbolOf(item) in s.ledgers
    requires Announced(s.gw, s.books[SymbolOf(item)], item)
    requires k <= |NotifyAll(s.gw, Process(s.books[SymbolOf(item)], item).calls).events|
    ensures var es := NotifyAll(s.gw, Process(s.books[SymbolOf(item)], item).calls).events;
            var t := ApplyEvents(Rows(s.view + s.ghosts), es[..k]);
            || Restorable(Recovered(t), s.books.Keys)
            || t == Rows(Stepped(s, item).view + Stepped(s, item).ghosts)
  {
    hide BooksOk, OrdersOk, Recorded, Process, NotifyAll, Rows, Safe, Recovered, PublishAll, Due, Announced,
         ApplyEvents, Stepped, Shrunk, GhostsUncrossed, Restorable, Mirrors, Strip, SameEntries, ApplyMds;
    var p, cs := s.view + s.ghosts, Process(s.books[SymbolOf(item)], item).calls;
    var j := CutPersists(s.gw, p, cs, k);
    if j < |cs| {
      CutIsShrunk(s, item, j);
      RecoverableIff(s);
      ShrunkIsRestorable(PublishAll(s.gw, p, cs[..j]), p, s.books.Keys);
    } else {
      assert cs[..j] == cs;
      StepDelivers(s, item);
      AllPersists(s.gw, p, cs);
    }
  }

  lemma {:induction false} ShrunkIsRestorable(p': View, p: View, symbols: set<Symbol>)
    requires Restorable(Recovered(Rows(p)), symbols) && Shrunk(p', p)
    ensures Restorable(Recovered(Rows(p')), symbols)
  {
    var v, v' := Recovered(Rows(p)), Recovered(Rows(p'));
    forall id | id in v'
      ensures id in v && v'[id] == v[id].(qty := v'[id].leaves, leaves := v'[id].leaves) && v'[id].leaves > 0
    {
      assert Reduced(p'[id], p[id]);
    }
  }

  // ---- Over whole runs ----

  lemma {:induction false} CutsJoin(t: Table, a: seq<DbEvent>, b: seq<DbEvent>, symbols: set<Symbol>)
    ensures CrashSafe(t, a + b, symbols) <==>
            CrashSafe(t, a, symbols) && CrashSafe(ApplyEvents(t, a), b, symbols)
  {
    hide Restorable, Recovered, ApplyEvents;
    forall k | 0 <= k <= |a + b|
      ensures k <= |a| ==> (a + b)[..k] == a[..k]
      ensures k >= |a| ==> ApplyEvents(t, (a + b)[..k]) == ApplyEvents(ApplyEvents(t, a), b[..k - |a|])
    {
      if k <= |a| {
        assert (a + b)[..k] == a[..k];
      }
      if k >= |a| {
        assert (a + b)[..k] == a + b[..k - |a|];
        ApplyEventsAppend(t, a, b[..k - |a|]);
      }
    }
    if CrashSafe(t, a + b, symbols) {
      forall k | 0 <= k <= |a|
        ensures Restorable(Recovered(ApplyEvents(t, a[..k])), symbols)
      {
        assert (a + b)[..k] == a[..k];
      }
      forall k | 0 <= k <= |b|
        ensures Restorable(Recovered(ApplyEvents(ApplyEvents(t, a), b[..k])), symbols)
      {
        assert (a + b)[..k + |a|] == a + b[..k];
        ApplyEventsAppend(t, a, b[..k]);
      }
    }
  }

  lemma {:induction false} SafeNow(s: Sys)
    requires Published(s) && AllCutsSafe(s)
    ensures GhostsUncrossed(s.view, s.ghosts)
  {
    hide BooksOk, OrdersOk, QueueOk, Recorded, Rows, Restorable, Recovered, ApplyEvents,
         GhostsUncrossed;
    assert s.log[..|s.log|] == s.log;
    RecoverableIff(s);
  }

  /** One more action, and every cut is still safe if and only if no order came to rest at a
      price that meets a silently filled one. */
  lemma {:induction false} NextSafeIff(s: Sys, a: Action)
    requires Published(s) && Told(s, a) && AllCutsSafe(s)
    ensures AllCutsSafe(Next(s, a)) <==> !MeetsGhost(s, a)
  {
    hide Published, Told, Next, GhostsUncrossed, CrashSafe, ComesToRest, MetAt, Stepped;
    NextKeepsPublished(s, a);
    SafeNow(s);
    NextMeetsIff(s, a);
    if AllCutsSafe(Next(s, a)) {
      SafeNow(Next(s, a));
    } else if !MeetsGhost(s, a) {
      if a.Dequeue? && s.queue != [] {
        DequeueSafe(s);
      } else {
        NextFrame(s, a);
      }
    }
  }

  lemma {:induction false} NextMeetsIff(s: Sys, a: Action)
    requires Published(s) && Told(s, a) && GhostsUncrossed(s.view, s.ghosts)
    ensures GhostsUncrossed(Next(s, a).view, Next(s, a).ghosts) <==> !MeetsGhost(s, a)
  {
    hide Base, Recorded, TableOk, Announced, Next, GhostsUncrossed, ComesToRest, MetAt, Stepped, BooksOk, OrdersOk, Due,
         Answerable;
    if a.Dequeue? && s.queue != [] {
      DequeueIsStep(s);
      StepMeetsIff(s.(queue := s.queue[1..]), s.queue[0]);
    } else {
      NextFrame(s, a);
    }
  }

  lemma {:induction false} DequeueSafe(s: Sys)
    requires Published(s) && Told(s, Dequeue) && s.queue != [] && AllCutsSafe(s) && GhostsUncrossed(s.view, s.ghosts)
    requires GhostsUncrossed(Next(s, Dequeue).view, Next(s, Dequeue).ghosts) && Published(Next(s, Dequeue))
    ensures AllCutsSafe(Next(s, Dequeue))
  {
    hide BooksOk, OrdersOk, QueueOk, Recorded, Process, NotifyAll, Rows, Restorable, Recovered,
         ApplyEvents, Stepped, GhostsUncrossed, CrashSafe, Due, Announced, Answerable, Next;
    var item, s1, s' := s.queue[0], s.(queue := s.queue[1..]), Next(s, Dequeue);
    DequeueIsStep(s);
    OnlyQueue(s, s1);
    var es := NotifyAll(s.gw, Process(s.books[SymbolOf(item)], item).calls).events;
    SteppedFrame(s1, item);
    RecoverableIff(s');
    forall k | 0 <= k <= |es|
      ensures Restorable(Recovered(ApplyEvents(s.Table(), es[..k])), s.books.Keys)
    {
      StepCut(s1, item, k);
    }
    EveryCut(s.Table(), es, s.books.Keys);
    CutsJoin(s.table0, s.log, es, s.books.Keys);
  }

  lemma {:induction false} EveryCut(t: Table, es: seq<DbEvent>, symbols: set<Symbol>)
    requires forall k :: 0 <= k <= |es| ==> Restorable(Recovered(ApplyEvents(t, es[..k])), symbols)
    ensures CrashSafe(t, es, symbols)
  {
  }

  /** At no step of the run does an order come to rest at a price that meets a silently
      filled one. */
  predicate NeverMeets(s: Sys, run: seq<Action>)
    decreases |run|
  {
    run == [] || (!MeetsGhost(s, run[0]) && NeverMeets(Next(s, run[0]), run[1..]))
  }

  lemma {:induction false} CutsOnlyGrow(s: Sys, run: seq<Action>)
    requires AllCutsSafe(Exec(s, run))
    ensures AllCutsSafe(s)
    decreases |run|
  {
    hide Next, CrashSafe;
    if run != [] {
      CutsOnlyGrow(Next(s, run[0]), run[1..]);
      NextFrame(s, run[0]);
      CutsJoin(s.table0, s.log, Next(s, run[0]).log[|s.log|..], s.books.Keys);
    }
  }

  /** Whatever prefix of the event stream survives a crash during the run, even one that cuts
      a step in half, can be restored, if and only if at no step of the run an order came to
      rest at a price that meets a silently filled one. */
  lemma {:induction false} EveryCutSafeIff(s: Sys, run: seq<Action>)
    requires Published(s) && AllTold(s, run) && AllCutsSafe(s)
    ensures AllCutsSafe(Exec(s, run)) <==> NeverMeets(s, run)
    decreases |run|
  {
    hide Published, Next, Told, MeetsGhost, CrashSafe, AllCutsSafe;
    if run != [] {
      var s1 := Next(s, run[0]);
      NextKeepsPublished(s, run[0]);
      NextSafeIff(s, run[0]);
      if AllCutsSafe(s1) {
        EveryCutSafeIff(s1, run[1..]);
      } else if AllCutsSafe(Exec(s, run)) {
        CutsOnlyGrow(s1, run[1..]);
      }
    }
  }
}
