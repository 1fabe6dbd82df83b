/** Restart after a crash: the recovered state is as good a starting point as the empty
    exchange, except that orders have no session until their owners log on. */
module Recovery {
  import opened Orders
  import opened Matching
  import opened Books
  import opened Ledger
  import opened Engine
  import opened Views
  import opened Gateway
  import opened Publishing
  import opened Agreement
  import opened Announcing
  import opened Mirror
  import opened Persistence
  import opened System
  import opened Crashes

  // ---- restoreOrders ----

  function Emplace(active: map<Id, Order>, os: seq<Order>): map<Id, Order>
    decreases |os|
  {
    if os == [] then active
    else Emplace(if os[0].id in active then active else active[os[0].id := os[0]], os[1..])
  }

  /** Sessions are left empty; the id counter only moves if some order was found. */
  function RestoreOrders(g: Gw, os: seq<Order>, maxSeq: nat): Gw {
    Gw(g.sessions, Emplace(g.active, os), if maxSeq > 0 then maxSeq else g.seqNo)
  }

  lemma {:induction false} EmplaceHolds(active: map<Id, Order>, os: seq<Order>)
    requires Distinct(os) && forall i :: 0 <= i < |os| ==> os[i].id !in active
    ensures var m := Emplace(active, os);
            && (forall id :: id in active ==> id in m && m[id] == active[id])
            && (forall i :: 0 <= i < |os| ==> os[i].id in m && m[os[i].id] == os[i])
            && (forall id :: id in m ==> id in active || exists i :: 0 <= i < |os| && os[i].id == id)
    decreases |os|
  {
    if os != [] {
      var active', os' := active[os[0].id := os[0]], os[1..];
      forall i | 0 <= i < |os'|
        ensures os'[i].id !in active'
      {
        assert os[0].id != os[i + 1].id;
      }
      EmplaceHolds(active', os');
      var m := Emplace(active, os);
      forall i | 0 <= i < |os|
        ensures os[i].id in m && m[os[i].id] == os[i]
      {
        if i > 0 {
          assert os[i] == os'[i - 1];
        } else {
          assert os[0].id in active';
        }
      }
      forall id | id in m
        ensures id in active || exists i :: 0 <= i < |os| && os[i].id == id
      {
        if id !in active' {
          var i :| 0 <= i < |os'| && os'[i].id == id;
          assert os[i + 1].id == id;
        } else if id !in active {
          assert os[0].id == id;
        }
      }
    }
  }

  predicate FirstOf(os: seq<Order>, i: nat)
    requires i < |os|
  {
    forall j :: 0 <= j < i ==> os[j].id != os[i].id
  }

  /** Whatever is restored: what was active stays, of several orders with one id the first wins, no
      session is opened, and the counter moves to a number found, but not to zero. */
  lemma {:induction false} RestoreKeeps(g: Gw, os: seq<Order>, maxSeq: nat)
    ensures var g' := RestoreOrders(g, os, maxSeq);
            && g'.sessions == g.sessions && (maxSeq > 0 ==> g'.seqNo == maxSeq) && (maxSeq == 0 ==> g'.seqNo == g.seqNo)
            && (forall id :: id in g.active ==> id in g'.active && g'.active[id] == g.active[id])
            && (forall i :: 0 <= i < |os| && os[i].id !in g.active && FirstOf(os, i) ==>
                  os[i].id in g'.active && g'.active[os[i].id] == os[i])
    decreases |os|
  {
    if os != [] {
      var o := os[0];
      var g1 := if o.id in g.active then g else g.(active := g.active[o.id := o]);
      RestoreKeeps(g1, os[1..], maxSeq);
      var m := Emplace(g.active, os);
      forall i | 0 <= i < |os| && os[i].id !in g.active && FirstOf(os, i)
        ensures os[i].id in m && m[os[i].id] == os[i]
      {
        if i > 0 {
          assert os[1..][i - 1] == os[i] && os[i].id != o.id;
          assert FirstOf(os[1..], i - 1);
        }
      }
    }
  }

  /** The gateway's active orders after restoreOrders are the recovered set. */
  lemma {:induction false} RestoreOrdersExact(os: seq<Order>, v: View)
    requires Enumerates(os, v)
    ensures Emplace(map[], os) == v
  {
    EmplaceHolds(map[], os);
    var m := Emplace(map[], os);
    forall id | id in m
      ensures id in v && v[id] == m[id]
    {
      var i :| 0 <= i < |os| && os[i].id == id;
    }
  }

  // ---- onLogon ----

  datatype Logon = Logon(client: string, session: Session)

  function RebindAll(g: Gw, logons: seq<Logon>): Gw
    decreases |logons|
  {
    if logons == [] then g else RebindAll(Rebind(g, logons[0].client, logons[0].session), logons[1..])
  }

  /** Logging on binds exactly the client's orders that had no session. */
  lemma {:induction false} RebindAllBinds(g: Gw, logons: seq<Logon>)
    ensures var g' := RebindAll(g, logons);
            && g'.active == g.active && g'.seqNo == g.seqNo
            && (forall id :: id in g.sessions ==> id in g'.sessions && g'.sessions[id] == g.sessions[id])
            && (forall id :: id in g'.sessions <==>
                  || id in g.sessions
                  || (id in g.active && exists i :: 0 <= i < |logons| && logons[i].client == g.active[id].client))
    decreases |logons|
  {
    if logons != [] {
      var g1 := Rebind(g, logons[0].client, logons[0].session);
      RebindAllBinds(g1, logons[1..]);
      forall id | id in g.active && exists i :: 0 <= i < |logons| && logons[i].client == g.active[id].client
        ensures id in g1.sessions || exists i :: 0 <= i < |logons[1..]| && logons[1..][i].client == g.active[id].client
      {
        var i :| 0 <= i < |logons| && logons[i].client == g.active[id].client;
        if i > 0 {
          assert logons[1..][i - 1].client == g.active[id].client;
        }
      }
      forall id | id in g.active && exists i :: 0 <= i < |logons[1..]| && logons[1..][i].client == g.active[id].client
        ensures exists i :: 0 <= i < |logons| && logons[i].client == g.active[id].client
      {
        var i :| 0 <= i < |logons[1..]| && logons[1..][i].client == g.active[id].client;
        assert logons[i + 1].client == g.active[id].client;
      }
    }
  }

  /** i is the client's first logon. */
  predicate FirstLogon(logons: seq<Logon>, i: nat, client: string) {
    i < |logons| && logons[i].client == client && forall j :: 0 <= j < i ==> logons[j].client != client
  }

  /** An order without a session gets the first session that its client opens. */
  lemma {:induction false} FirstLogonBinds(g: Gw, logons: seq<Logon>, id: Id, i: nat)
    requires id in g.active && id !in g.sessions && FirstLogon(logons, i, g.active[id].client)
    ensures var g' := RebindAll(g, logons); id in g'.sessions && g'.sessions[id] == logons[i].session
    decreases |logons|
  {
    var g1 := Rebind(g, logons[0].client, logons[0].session);
    if i == 0 {
      RebindAllBinds(g1, logons[1..]);
      assert id in g1.sessions;
    } else {
      FirstLogonBinds(g1, logons[1..], id, i - 1);
    }
  }

  // ---- The restored books and their histories ----

  function EnterAll(ledgers: map<Symbol, History>, os: seq<Order>): map<Symbol, History>
    decreases |os|
  {
    if os == [] then ledgers
    else
      var o := os[0];
      EnterAll(if o.symbol in ledgers then ledgers[o.symbol := ledgers[o.symbol] + [Entered(o)]] else ledgers, os[1..])
  }

  /** A restored order enters the history without matching. */
  lemma {:induction false} RestoreKeepsAccounts(symbol: Symbol, b: Book, o: Order, h: History)
    requires Accounted(symbol, b, h) && Valid(symbol, Restore(b, o))
    requires o.qty == o.leaves && !Present(b, o.id)
    ensures Accounted(symbol, Restore(b, o), h + [Entered(o)])
  {
    hide Stamp, Cum, Balance, Total, AllHonest, Insert;
    var own, opp := b.On(o.side), b.On(o.side.Opposite());
    var h' := h + [Entered(o)];
    Extend(h, Entered(o));
    EnteringKeeps(own, o, h);
    EnteringKeeps(opp, o, h);
    forall i | 0 <= i < |own|
      ensures Stamp(h', own[i].id) < Stamp(h', o.id)
    {
      StampBound(h, own[i].id);
    }
    assert Sorted(o.side, own);
    InsertKeepsAccounts(own, o, h');
    TotalInsert(own, o);
  }

  ghost predicate AllAccounted(books: BookMap, ledgers: map<Symbol, History>) {
    ledgers.Keys == books.Keys && forall sym :: sym in books ==> Accounted(sym, books[sym], ledgers[sym])
  }

  lemma {:induction false} AccountedKeys(books: BookMap, ledgers: map<Symbol, History>)
    requires AllAccounted(books, ledgers)
    ensures ledgers.Keys == books.Keys
  {
  }

  lemma {:induction false} RestoreStepAccounts(
    v: View, all: View, books: BookMap, ledgers: map<Symbol, History>, o: Order)
    requires Safe(all) && AllFit(v, books) && AllAccounted(books, ledgers) && o.symbol in books
    requires o.id in all && all[o.id] == o && o.id !in v && o.qty == o.leaves
    requires forall id :: id in v ==> id in all && all[id] == v[id]
    ensures AllFit(v[o.id := o], RestoreOne(books, o))
    ensures AllAccounted(RestoreOne(books, o), ledgers[o.symbol := ledgers[o.symbol] + [Entered(o)]])
  {
    hide Safe, Accounted, Valid;
    RestoreStep(v, all, books, o);
    var sym := o.symbol;
    AllFitKeyed(v, books, sym);
    AllFitKeyed(v[o.id := o], RestoreOne(books, o), sym);
    FitsPresence(v, sym, books[sym], o.id);
    hide AllFit;
    RestoreKeepsAccounts(sym, books[sym], o, ledgers[sym]);
  }

  lemma {:induction false} RestoreAllAccounts(
    v: View, all: View, books: BookMap, ledgers: map<Symbol, History>, os: seq<Order>)
    requires Safe(all) && AllFit(v, books) && AllAccounted(books, ledgers)
    requires forall id :: id in all ==> all[id].symbol in books && all[id].qty == all[id].leaves
    requires forall id :: id in v ==> id in all && all[id] == v[id]
    requires Distinct(os)
    requires forall i :: 0 <= i < |os| ==> os[i].id in all && all[os[i].id] == os[i] && os[i].id !in v
    ensures AllAccounted(RestoreAll(books, os), EnterAll(ledgers, os))
    decreases |os|
  {
    hide AllFit, Safe, AllAccounted, RestoreOne;
    if os != [] {
      var o := os[0];
      AccountedKeys(books, ledgers);
      RestoreStepAccounts(v, all, books, ledgers, o);
      RestoreOneKeys(books, o);
      forall i | 0 <= i < |os[1..]|
        ensures os[1..][i].id in all && all[os[1..][i].id] == os[1..][i] && os[1..][i].id !in v[o.id := o]
      {
        assert os[0].id != os[i + 1].id;
      }
      RestoreAllAccounts(v[o.id := o], all, RestoreOne(books, o),
        ledgers[o.symbol := ledgers[o.symbol] + [Entered(o)]], os[1..]);
    }
  }

  // ---- The restarted exchange ----

  /** The books and the gateway as recovery leaves them: no order has a session yet. */
  function Restarted(symbols: set<Symbol>, t: Table, os: seq<Order>, n: nat, ui: Mirror.State): Sys {
    Sys(RestoreAll(EmptyBooks(symbols), os), EnterAll(map s | s in symbols :: [], os),
        RestoreOrders(Gw(map[], map[], 0), os, n), [],
        t, [], ui, [], Recovered(t), map[], {}, map[], {})
  }

  /** Restarting from any restorable table, in any row order: books, queue, records and table
      are in order, and everything is, if and only if the mirror shows the recovered orders. */
  lemma {:induction false} RestartInv(symbols: set<Symbol>, t: Table, os: seq<Order>, n: nat, ui: Mirror.State)
    requires Restorable(Recovered(t), symbols) && Enumerates(os, Recovered(t)) && IsMaxSeq(t, n)
    ensures var s := Restarted(symbols, t, os, n, ui);
            && Published(s) && GatewayOk(s) && AllCutsSafe(s)
            && (Inv(s) <==> Mirrors(ui, Recovered(t)))
  {
    hide Safe, Accounted, AllFit, Emplace, RestoreAll, EnterAll, Mirrors, Recovered, Rows, Restarted, BooksOk,
         OrdersOk, GatewayOk, AllPositive, Keyed, RestoreOrders, Follows;
    var s, v := Restarted(symbols, t, os, n, ui), Recovered(t);
    RestartFields(symbols, t, os, n, ui);
    RestartBooks(symbols, t, os, n, ui);
    BooksAreSafe(v, s.books) by { BooksView(s); }
    RestartGateway(t, os, n);
    RestartOrdersOk(s);
    RowsOfRecovered(t);
    assert v + map[] == v;
    NoPackets(ui);
    assert Strip(ui, {}) == ui;
    assert s.log[..0] == [];
  }

  lemma {:induction false} RestartFields(symbols: set<Symbol>, t: Table, os: seq<Order>, n: nat, ui: Mirror.State)
    ensures var s := Restarted(symbols, t, os, n, ui);
            && s.view == Recovered(t) && s.kept == map[] && s.ghosts == map[] && s.dropped == {} && s.queue == []
            && s.blanks == {}
            && s.gw == RestoreOrders(Gw(map[], map[], 0), os, n)
            && s.table0 == t && s.log == [] && s.ui0 == ui && s.feed == []
            && s.books == RestoreAll(EmptyBooks(symbols), os)
  {
  }

  lemma {:induction false} BooksView(s: Sys)
    requires BooksOk(s)
    ensures AllFit(s.view, s.books) && forall id :: id in s.view ==> s.view[id].symbol in s.books
    ensures Keyed(s.view)
  {
  }

  lemma {:induction false} RowsOfRecovered(t: Table)
    ensures Rows(Recovered(t)) == t
  {
  }

  lemma {:induction false} RestartBooks(symbols: set<Symbol>, t: Table, os: seq<Order>, n: nat, ui: Mirror.State)
    requires Restorable(Recovered(t), symbols) && Enumerates(os, Recovered(t))
    ensures BooksOk(Restarted(symbols, t, os, n, ui)) && Restarted(symbols, t, os, n, ui).books.Keys == symbols
  {
    hide Safe, Accounted, AllFit, RestoreAll, EnterAll, Recovered, RestoreOrders;
    assert Known(Recovered(t), symbols) == Recovered(t);
    RecoveryRebuildsIff(t, symbols, os);
    RestartAccounts(symbols, t, os);
  }

  /** The restarted gateway has a record of exactly the recovered orders. */
  lemma {:induction false} RestartGateway(t: Table, os: seq<Order>, n: nat)
    requires Enumerates(os, Recovered(t)) && IsMaxSeq(t, n) && forall id :: id in Recovered(t) ==> id >= 1
    ensures var g := RestoreOrders(Gw(map[], map[], 0), os, n);
            g.active == Recovered(t) && g.sessions == map[] && Bounded(g.active.Keys, g.seqNo)
  {
    hide Emplace;
    RestoreOrdersExact(os, Recovered(t));
  }

  lemma {:induction false} RestartOrdersOk(s: Sys)
    requires BooksOk(s) && s.gw.active == s.view && s.gw.sessions == map[] && Bounded(s.view.Keys, s.gw.seqNo)
    requires s.kept == map[] && s.ghosts == map[] && s.blanks == {} && AllPositive(s.view)
    ensures OrdersOk(s) && GatewayOk(s) && Recorded(s, false) && Recorded(s, true)
  {
    hide Accounted, AllFit;
    BooksView(s);
    assert s.view + map[] == s.view;
    assert s.view.Keys + s.kept.Keys + s.ghosts.Keys + s.blanks == s.view.Keys;
  }

  lemma {:induction false} RestartAccounts(symbols: set<Symbol>, t: Table, os: seq<Order>)
    requires Restorable(Recovered(t), symbols) && Enumerates(os, Recovered(t))
    ensures AllAccounted(RestoreAll(EmptyBooks(symbols), os), EnterAll(map s | s in symbols :: [], os))
  {
    hide Safe;
    var books, ledgers := EmptyBooks(symbols), map s | s in symbols :: [];
    forall sym | sym in books
      ensures Accounted(sym, books[sym], ledgers[sym])
    {
      EmptyIsAccounted(sym);
    }
    RestoreAllAccounts(map[], Recovered(t), books, ledgers, os);
  }

  // ---- Sessions ----

  /** Every order the gateway has a record of has a session. */
  predicate Bound(g: Gw) {
    g.sessions.Keys == g.active.Keys
  }

  lemma {:induction false} CallbacksKeepBound(g: Gw, cs: seq<Callback>)
    requires Bound(g)
    ensures Bound(NotifyAll(g, cs).gw)
    decreases |cs|
  {
    if cs != [] {
      OneKeepsBound(g, cs[0]);
      hide Notify, Bound;
      CallbacksKeepBound(Notify(g, cs[0]).gw, cs[1..]);
    }
  }

  lemma {:induction false} OneKeepsBound(g: Gw, c: Callback)
    requires Bound(g)
    ensures Bound(Notify(g, c).gw)
  {
  }

  lemma {:induction false} NextKeepsBound(s: Sys, a: Action)
    requires Bound(s.gw)
    ensures Bound(Next(s, a).gw)
  {
    hide Process, NotifyAll, Stepped, Next, Bound, OnOrderMsg, Rebind, Accepts, ForwardsCancel, ForwardsReplace;
    NextIs(s, a);
    match a
    case Submit(msg, session) => GatewayKeepsBound(s.gw, msg.(knownSymbol := msg.symbol in s.books), "", session);
    case LogOn(client, session) =>
      var m: OrderMsg :| true;
      GatewayKeepsBound(s.gw, m, client, session);
    case Dequeue =>
      if s.queue != [] && SymbolOf(s.queue[0]) in s.books && SymbolOf(s.queue[0]) in s.ledgers {
        SteppedFrame(s.(queue := s.queue[1..]), s.queue[0]);
        CallbacksKeepBound(s.gw, Process(s.books[SymbolOf(s.queue[0])], s.queue[0]).calls);
      }
    case _ =>
  }

  lemma {:induction false} GatewayKeepsBound(g: Gw, m: OrderMsg, client: string, session: Session)
    requires Bound(g)
    ensures Bound(OnOrderMsg(g, m, session)) && Bound(Rebind(g, client, session))
  {
    hide Accepts;
  }

  /** With every order bound, a step cannot touch one that is not. */
  lemma {:induction false} BoundIsUntouched(g: Gw, v: View, kept: View, symbol: Symbol, b: Book, item: WorkItem)
    requires Agree(g, v, kept) && Bound(g) && Fits(v, symbol, b) && Valid(symbol, b) && Keyed(v)
    ensures Untouched(g, b, item)
  {
    hide Valid, Keyed, Killed, Add, Replace, Present, Lookup;
    assert forall side: Side, i :: 0 <= i < |b.On(side)| ==> b.On(side)[i].id in g.sessions;
    match item
    case NewOrder(_) =>
    case CancelItem(c) => FitsPresence(v, symbol, b, c.id);
    case ReplaceItem(q) =>
      FitsPresence(v, symbol, b, q.id);
      LookupFinds(symbol, b, q.id);
  }

  lemma {:induction false} BoundIsProper(s: Sys, run: seq<Action>)
    requires Base(s) && GatewayOk(s) && Bound(s.gw) && AllDefined(s, run)
    ensures AllProper(s, run)
    decreases |run|
  {
    hide Base, GatewayOk, Bound, Next, Defined, Untouched;
    if run != [] {
      if run[0].Dequeue? && s.queue != [] {
        FrontIsUntouched(s);
      }
      assert Proper(s, run[0]);
      NextKeepsBase(s, run[0]);
      NextKeepsGateway(s, run[0]);
      NextKeepsBound(s, run[0]);
      BoundIsProper(Next(s, run[0]), run[1..]);
    }
  }

  lemma {:induction false} FrontIsUntouched(s: Sys)
    requires Base(s) && GatewayOk(s) && Bound(s.gw) && Defined(s, Dequeue) && s.queue != []
    ensures SymbolOf(s.queue[0]) in s.books && Untouched(s.gw, s.books[SymbolOf(s.queue[0])], s.queue[0])
  {
    hide Base, BooksOk, OrdersOk, QueueOk, Recorded, Agree, Untouched, Bound, Keyed, Valid, Shows, Answerable,
         Acceptable;
    BaseParts(s);
    FrontIsDue(s);
    DueIsAcceptable(s, s.queue[0]);
    BoundIsUntouched(s.gw, s.view, s.kept, SymbolOf(s.queue[0]), s.books[SymbolOf(s.queue[0])], s.queue[0]);
  }

  function LogOns(logons: seq<Logon>): seq<Action> {
    seq(|logons|, i requires 0 <= i < |logons| => LogOn(logons[i].client, logons[i].session))
  }

  /** Logging on is nothing but binding, and when every owner of a restored order has logged
      on, every order is bound. */
  lemma {:induction false} EveryoneBack(s: Sys, logons: seq<Logon>)
    ensures Exec(s, LogOns(logons)) == s.(gw := RebindAll(s.gw, logons))
    ensures (forall id :: id in s.gw.active && id !in s.gw.sessions ==>
               exists i :: 0 <= i < |logons| && logons[i].client == s.gw.active[id].client)
            && s.gw.sessions.Keys <= s.gw.active.Keys
            ==> Bound(Exec(s, LogOns(logons)).gw)
  {
    hide Rebind, RebindAll;
    LogOnsRebind(s, logons);
    RebindAllBinds(s.gw, logons);
  }

  lemma {:induction false} LogOnsRebind(s: Sys, logons: seq<Logon>)
    ensures Exec(s, LogOns(logons)) == s.(gw := RebindAll(s.gw, logons))
    decreases |logons|
  {
    hide Rebind;
    if logons != [] {
      assert LogOns(logons)[1..] == LogOns(logons[1..]);
      LogOnsRebind(Next(s, LogOn(logons[0].client, logons[0].session)), logons[1..]);
    }
  }

  // ---- Ids ----

  /** The id that the order message at position i of a run is given. */
  function IssuedAt(s: Sys, run: seq<Action>, i: nat): Id
    requires i < |run|
  {
    Exec(s, run[..i]).gw.seqNo + 1
  }

  /** Ids issued in a run differ from those of all orders known at its start, restored ones
      included, and from each other, whether or not the orders are accepted. */
  lemma {:induction false} IdsAreFresh(s: Sys, run: seq<Action>, i: nat)
    requires OrdersOk(s) && i < |run| && run[i].Submit?
    ensures forall id :: id in s.view || id in s.kept || id in s.ghosts ==> id < IssuedAt(s, run, i)
    ensures forall j :: i < j < |run| ==> IssuedAt(s, run, i) < IssuedAt(s, run, j)
    ensures OrderFrom(Exec(s, run[..i]).gw, run[i].msg).id == IssuedAt(s, run, i)
  {
    hide Next, Exec, AllPositive, Keyed;
    SeqMono(s, run[..i]);
    forall j | i < j < |run|
      ensures IssuedAt(s, run, i) < IssuedAt(s, run, j)
    {
      var s1 := Exec(s, run[..i]);
      SeqGrows(s1, run[i]);
      assert run[..j] == run[..i] + ([run[i]] + run[i + 1..j]);
      ExecSplit(s, run[..i], [run[i]] + run[i + 1..j]);
      ExecCons(s1, run[i], run[i + 1..j]);
      SeqMono(Next(s1, run[i]), run[i + 1..j]);
    }
  }

  lemma {:induction false} ExecCons(s: Sys, a: Action, run: seq<Action>)
    ensures Exec(s, [a] + run) == Exec(Next(s, a), run)
  {
    assert ([a] + run)[1..] == run;
  }

  lemma {:induction false} ExecSplit(s: Sys, a: seq<Action>, b: seq<Action>)
    ensures Exec(s, a + b) == Exec(Exec(s, a), b)
    decreases |a|
  {
    hide Next;
    if a == [] {
      assert a + b == b;
    } else {
      assert (a + b)[1..] == a[1..] + b;
      ExecSplit(Next(s, a[0]), a[1..], b);
    }
  }

  lemma {:induction false} SeqMono(s: Sys, run: seq<Action>)
    ensures Exec(s, run).gw.seqNo >= s.gw.seqNo
    decreases |run|
  {
    hide Next;
    if run != [] {
      SeqGrows(s, run[0]);
      SeqMono(Next(s, run[0]), run[1..]);
    }
  }

  lemma {:induction false} SeqGrows(s: Sys, a: Action)
    ensures Next(s, a).gw.seqNo >= s.gw.seqNo
    ensures a.Submit? ==> Next(s, a).gw.seqNo == s.gw.seqNo + 1
  {
    hide Process, NotifyAll, Stepped, Next, Accepts, ForwardsCancel, ForwardsReplace;
    NextIs(s, a);
    if a.Dequeue? && s.queue != [] && SymbolOf(s.queue[0]) in s.books && SymbolOf(s.queue[0]) in s.ledgers {
      SteppedFrame(s.(queue := s.queue[1..]), s.queue[0]);
      CallbacksOnlyRemove(s.gw, Process(s.books[SymbolOf(s.queue[0])], s.queue[0]).calls);
    }
  }
}
