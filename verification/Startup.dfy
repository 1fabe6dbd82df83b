/** The recovery block of the main program. */
module Startup {
  import opened Orders
  import opened Books
  import opened Views
  import opened Gateway
  import opened Persistence
  import opened System
  import opened Crashes
  import opened Recovery
  import opened Theorems
  import opened PersistenceThread
  import opened GatewayObject
  import opened EngineThread
  import opened IndexedBook

  /** Load the table, hand the orders to the gateway, and put each back into its book. Whatever
      the table, the gateway then has a record of exactly its rows, its counter is past all
      their ids, and the books are those the rows make, every order found through its index;
      and the books are valid if and only if the rows of known symbols can rest side by side. */
  method Recover(p: PersistenceLayer, g: FixGateway, e: MatchingEngine) returns (os: seq<Order>)
    requires e.Ok() && e.Contents() == EmptyBooks(e.books.Keys)
    requires g.State() == Gw(map[], map[], 0) && g.Valid()
    modifies g, e.books.Values
    ensures e.Sound() && e.books == old(e.books) && g.Valid()
    ensures Enumerates(os, Recovered(p.table)) && e.Contents() == RestoreAll(EmptyBooks(old(e.books).Keys), os)
    ensures e.Ok() <==> Safe(Known(Recovered(p.table), e.books.Keys))
    ensures e.Ok() ==> AllFit(Known(Recovered(p.table), e.books.Keys), e.Contents())
    ensures g.active == Recovered(p.table) && g.sessions == map[]
    ensures forall id :: id in p.table ==> id <= g.orderSeq
  {
    hide Safe, AllFit, RestoreAll, Recovered, Emplace, MatchingEngine.Ok, MatchingEngine.Sound,
         MatchingEngine.Contents, Enumerates, Valid, Known;
    var max := p.LoadMaxOrderSeq();
    os := p.LoadRestingOrders();
    RestoreOrdersExact(os, Recovered(p.table));
    g.RestoreActive(os, max);
    SoundIsOk(e, map[]);
    RestoreBooks(e, os, Recovered(p.table));
    RecoveryRebuildsIff(p.table, e.books.Keys, os);
    SoundIsOk(e, Known(Recovered(p.table), e.books.Keys));
  }

  /** An engine with sound indexes is in order if and only if its books are valid. */
  lemma {:induction false} SoundIsOk(e: MatchingEngine, v: View)
    ensures e.Ok() ==> e.Sound()
    ensures e.Sound() ==> e.Contents().Keys == e.books.Keys
    ensures e.Sound() ==> (e.Ok() <==> forall s :: s in e.books ==> Valid(s, e.Contents()[s]))
    ensures e.Sound() && AllFit(v, e.Contents()) ==> e.Ok()
  {
    hide Coherent, Abs, Valid, Shows, Keyed;
  }

  method RestoreBooks(e: MatchingEngine, os: seq<Order>, ghost all: View)
    requires e.Sound() && e.Contents() == EmptyBooks(e.books.Keys) && Enumerates(os, all)
    modifies e.books.Values
    ensures e.Sound() && e.books == old(e.books)
    ensures e.Contents() == RestoreAll(EmptyBooks(old(e.books).Keys), os)
  {
    hide RestoreOne, Restore, Present, MatchingEngine.Sound, MatchingEngine.Contents, Enumerates;
    ghost var symbols := e.books.Keys;
    NoneYet(symbols, os);
    for i := 0 to |os|
      invariant e.Sound() && e.books == old(e.books) && e.Contents().Keys == symbols
      invariant RestoreAll(EmptyBooks(symbols), os) == RestoreAll(e.Contents(), os[i..])
      invariant OnlyThese(e.Contents(), os[..i])
    {
      NotYet(e.Contents(), os, i, all);
      RestoreOneKeys(e.Contents(), os[i]);
      OneMoreRestored(e.Contents(), os[..i], os[i]);
      assert os[..i + 1] == os[..i] + [os[i]];
      e.RestoreOrder(os[i]);
    }
  }

  /** Every order in the books is one of os. */
  ghost predicate OnlyThese(books: BookMap, os: seq<Order>) {
    forall s, id :: s in books && Present(books[s], id) ==> Holds(os, id)
  }

  lemma {:induction false} NoneYet(symbols: set<Symbol>, os: seq<Order>)
    ensures OnlyThese(EmptyBooks(symbols), os[..0])
  {
  }

  lemma {:induction false} NotYet(books: BookMap, os: seq<Order>, i: nat, all: View)
    requires i < |os| && OnlyThese(books, os[..i]) && Enumerates(os, all)
    ensures os[i].symbol in books ==> !Present(books[os[i].symbol], os[i].id)
  {
    hide Present;
    assert !Holds(os[..i], os[i].id);
  }

  lemma {:induction false} OneMoreRestored(books: BookMap, os: seq<Order>, o: Order)
    requires OnlyThese(books, os)
    ensures OnlyThese(RestoreOne(books, o), os + [o])
  {
    hide Restore, Present;
    forall id | Holds(os, id) || id == o.id
      ensures Holds(os + [o], id)
    {
      if id == o.id {
        assert (os + [o])[|os|].id == id;
      } else {
        var i :| 0 <= i < |os| && os[i].id == id;
        assert (os + [o])[i].id == id;
      }
    }
    if o.symbol in books {
      RestoredPresence(books[o.symbol], o);
    }
  }

  lemma {:induction false} RestoredPresence(b: Book, o: Order)
    ensures forall id :: Present(Restore(b, o), id) ==> id == o.id || Present(b, id)
  {
    var s, t, k := b.On(o.side), Insert(b.On(o.side), o), Place(b.On(o.side), o);
    hide Place;
    forall id | Holds(t, id)
      ensures id == o.id || Holds(s, id)
    {
      var i :| 0 <= i < |t| && t[i].id == id;
      if i != k {
        assert t[i] == s[if i < k then i else i - 1];
      }
    }
  }

  /** At every moment of a run in which no order comes to rest at a price that meets a silently
      filled one, whatever the persistence thread has committed can be restored, so that
      recovery from it yields valid books. */
  lemma {:induction false} CommittedIsRestorable(p: PersistenceLayer, symbols: set<Symbol>, run: seq<Action>)
    requires AllDefined(Start(symbols), run) && NeverMeets(Start(symbols), run)
    requires p.Ok() && p.base == map[] && p.pushed <= Exec(Start(symbols), run).log
    ensures Restorable(Recovered(p.table), symbols) && Safe(Known(Recovered(p.table), symbols))
  {
    hide AllDefined, NeverMeets, Start, Exec, Recovered, ApplyEvents, Safe;
    CrashRecoveryIsSafeIff(symbols, run);
    var log := Exec(Start(symbols), run).log;
    assert p.pushed[..p.committed] == log[..p.committed];
    assert Known(Recovered(p.table), symbols) == Recovered(p.table);
  }
}
