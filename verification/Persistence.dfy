/** The resting_orders table, the persistence thread's batches, and recovery from any crash point. */
module Persistence {
  import opened Options
  import opened Orders
  import opened Books
  import opened Engine
  import opened Views
  import opened Gateway
  import opened Publishing

  datatype Row = Row(client: string, symbol: Symbol, side: Side, price: Price, leaves: int)

  type Table = map<Id, Row>

  function ApplyEvent(t: Table, e: DbEvent): Table {
    match e
    case RestedEvt(o, leaves) => t[o.id := Row(o.client, o.symbol, o.side, o.price, leaves)]
    case FillEvt(f) =>
      if f.leaves > 0 then if f.id in t then t[f.id := t[f.id].(leaves := f.leaves)] else t
      else t - {f.id}
    case TakerFillEvt(_) => t
    case CancelEvt(id) => t - {id}
    case ReplaceEvt(q, leaves) =>
      if leaves > 0 then if q.id in t then t[q.id := t[q.id].(price := q.price, leaves := leaves)] else t
      else t - {q.id}
  }

  function ApplyEvents(t: Table, es: seq<DbEvent>): Table
    decreases |es|
  {
    if es == [] then t else ApplyEvents(ApplyEvent(t, es[0]), es[1..])
  }

  lemma {:induction false} ApplyEventsAppend(t: Table, a: seq<DbEvent>, b: seq<DbEvent>)
    ensures ApplyEvents(t, a + b) == ApplyEvents(ApplyEvents(t, a), b)
    decreases |a|
  {
    if a == [] {
      assert a + b == b;
    } else {
      assert (a + b)[1..] == a[1..] + b;
      ApplyEventsAppend(ApplyEvent(t, a[0]), a[1..], b);
    }
  }

  // ---- The table follows the published orders ----

  function RowOf(o: Order): Row {
    Row(o.client, o.symbol, o.side, o.price, o.leaves)
  }

  function Rows(p: View): Table {
    map id | id in p :: RowOf(p[id])
  }

  /** Of this symbol, the table holds exactly the orders of the book. */
  ghost predicate TableShows(t: Table, symbol: Symbol, b: Book) {
    && (forall id :: id in t && t[id].symbol == symbol ==> Present(b, id))
    && (forall id :: Present(b, id) ==> id in t && Lookup(b, id).Some? && Describes(t[id], Lookup(b, id).value))
  }

  predicate Describes(row: Row, o: Order) {
    && row.client == o.client && row.symbol == o.symbol && row.side == o.side
    && row.price == o.price && row.leaves == o.leaves
  }

  /** An order written to the table comes back as the same client's limit order for what was left of it. */
  lemma {:induction false} RowsComeBack(t: Table, symbol: Symbol, b: Book, id: Id)
    requires TableShows(t, symbol, b) && Present(b, id)
    ensures id in Recovered(t) && Lookup(b, id).Some?
    ensures var r, o := Recovered(t)[id], Lookup(b, id).value;
            && r.id == id && r.client == o.client && r.symbol == o.symbol && r.side == o.side && r.price == o.price
            && r.leaves == r.qty == o.leaves && r.typ.Limit? && r.tif.Gtc?
  {
    hide Lookup, Present;
  }

  lemma {:induction false} RowsShow(v: View, symbol: Symbol, b: Book)
    requires Valid(symbol, b) && Fits(v, symbol, b) && Keyed(v)
    ensures TableShows(Rows(v), symbol, b)
  {
    hide Valid, Shows, Keyed, Present, Lookup;
    forall id
      ensures Present(b, id) <==> id in v && v[id].symbol == symbol
      ensures Present(b, id) ==> Lookup(b, id) == Some(v[id])
    {
      FitsPresence(v, symbol, b, id);
    }
  }

  /** At every point of a callback's events, even between them, the table holds the
      published orders from just before or just after that callback. */
  lemma {:induction false} NotifyPersists(g: Gw, p: View, c: Callback)
    ensures ApplyEvents(Rows(p), Notify(g, c).events) == Rows(Publish(g, p, c))
    ensures forall k :: 0 <= k < |Notify(g, c).events| ==>
              var t := ApplyEvents(Rows(p), Notify(g, c).events[..k]);
              t == Rows(p) || t == Rows(Publish(g, p, c))
  {
    hide Rows, ApplyEvent, Publish;
    var es := Notify(g, c).events;
    EventPersists(g, p, c);
    if |es| == 1 {
      assert es[1..] == [] && es[..0] == [];
    } else if |es| == 2 {
      assert es[1..] == [es[1]] && es[1..][1..] == [] && es[..0] == [] && es[..1] == [es[0]] && es[..1][1..] == [];
      assert ApplyEvents(Rows(p), es) == ApplyEvents(Rows(Publish(g, p, c)), [es[1]]);
      assert ApplyEvents(Rows(Publish(g, p, c)), [es[1]]) == ApplyEvent(Rows(Publish(g, p, c)), es[1]);
    }
  }

  /** A callback's first event makes the table follow; its second, a taker's fill, changes nothing. */
  lemma {:induction false} EventPersists(g: Gw, p: View, c: Callback)
    ensures var es := Notify(g, c).events;
            && |es| <= 2
            && (es == [] ==> Rows(Publish(g, p, c)) == Rows(p))
            && (|es| >= 1 ==> ApplyEvent(Rows(p), es[0]) == Rows(Publish(g, p, c)))
            && (|es| == 2 ==> forall t: Table :: ApplyEvent(t, es[1]) == t)
  {
  }

  lemma {:induction false} AllPersists(g: Gw, p: View, cs: seq<Callback>)
    ensures ApplyEvents(Rows(p), NotifyAll(g, cs).events) == Rows(PublishAll(g, p, cs))
    decreases |cs|
  {
    hide Notify, Publish, Rows;
    if cs != [] {
      var first := Notify(g, cs[0]);
      NotifyPersists(g, p, cs[0]);
      AllPersists(first.gw, Publish(g, p, cs[0]), cs[1..]);
      ApplyEventsAppend(Rows(p), first.events, NotifyAll(first.gw, cs[1..]).events);
    }
  }

  /** A table cut off anywhere in the middle of a step's events is the table of the orders
      published after some number of the step's callbacks. */
  lemma {:induction false} CutPersists(g: Gw, p: View, cs: seq<Callback>, k: nat) returns (j: nat)
    requires k <= |NotifyAll(g, cs).events|
    ensures j <= |cs|
    ensures ApplyEvents(Rows(p), NotifyAll(g, cs).events[..k]) == Rows(PublishAll(g, p, cs[..j]))
    decreases |cs|
  {
    hide Notify, Publish, Rows;
    var es := NotifyAll(g, cs).events;
    if cs == [] {
      j := 0;
      assert es[..k] == [] && cs[..j] == [];
    } else {
      var first := Notify(g, cs[0]);
      var n, p1 := |first.events|, Publish(g, p, cs[0]);
      NotifyPersists(g, p, cs[0]);
      assert cs[..1] == [cs[0]];
      PublishOne(g, p, cs[0]);
      if k < n {
        assert es[..k] == first.events[..k];
        j := if ApplyEvents(Rows(p), es[..k]) == Rows(p) then 0 else 1;
        assert cs[..0] == [];
      } else {
        var rest := NotifyAll(first.gw, cs[1..]).events;
        j := CutPersists(first.gw, p1, cs[1..], k - n);
        assert es[..k] == first.events + rest[..k - n];
        ApplyEventsAppend(Rows(p), first.events, rest[..k - n]);
        assert cs[..j + 1][1..] == cs[1..][..j] && cs[..j + 1][0] == cs[0];
        j := j + 1;
      }
    }
  }

  // ---- What may be recovered ----

  /** A set of resting orders that can be put back without matching: ids are its keys,
      quantities are positive, and no bid reaches an ask. */
  ghost predicate Safe(v: View) {
    && (forall id :: id in v ==> v[id].id == id && RestingOrder(v[id].symbol, v[id].side, v[id]))
    && (forall i, j :: i in v && j in v && v[i].symbol == v[j].symbol && v[i].side.Buy? && v[j].side.Sell? ==>
          v[i].price < v[j].price)
  }

  /** A row read back at start-up: a limit order for what was left of it. */
  function Loaded(id: Id, row: Row): Order {
    Order(id, row.client, row.symbol, row.side, Limit, row.price, row.leaves, row.leaves, Gtc)
  }

  function Recovered(t: Table): View {
    map id | id in t :: Loaded(id, t[id])
  }

  /** The largest id in the table, or zero. */
  ghost predicate IsMaxSeq(t: Table, n: nat) {
    (forall id :: id in t ==> id <= n) && (if t == map[] then n == 0 else n in t)
  }

  // ---- Putting the orders back ----

  type BookMap = map<Symbol, Book>

  function RestoreOne(books: BookMap, o: Order): BookMap {
    if o.symbol in books then books[o.symbol := Restore(books[o.symbol], o)] else books
  }

  function RestoreAll(books: BookMap, os: seq<Order>): BookMap
    decreases |os|
  {
    if os == [] then books else RestoreAll(RestoreOne(books, os[0]), os[1..])
  }

  ghost predicate AllFit(v: View, books: BookMap) {
    && (forall s :: s in books ==> Valid(s, books[s]) && Fits(v, s, books[s]))
    && Keyed(v)
  }

  lemma {:induction false} AllFitKeyed(v: View, books: BookMap, sym: Symbol)
    requires AllFit(v, books) && sym in books
    ensures Keyed(v) && Valid(sym, books[sym]) && Fits(v, sym, books[sym])
  {
  }

  /** os lists the orders of v, each once, in whatever order the database returns them. */
  ghost predicate Enumerates(os: seq<Order>, v: View) {
    && Distinct(os)
    && (forall i :: 0 <= i < |os| ==> os[i].id in v && v[os[i].id] == os[i])
    && (forall id :: id in v ==> exists i :: 0 <= i < |os| && os[i].id == id)
  }

  /** What restoring an order asks of the book holds for every order of a safe set. */
  lemma {:induction false} RestoreFits(v: View, all: View, books: BookMap, o: Order)
    requires Safe(all) && AllFit(v, books) && o.symbol in books
    requires o.id in all && all[o.id] == o && o.id !in v
    requires forall id :: id in v ==> id in all && all[id] == v[id]
    ensures RestingOrder(o.symbol, o.side, o) && !Present(books[o.symbol], o.id)
    ensures var opp := books[o.symbol].On(o.side.Opposite());
            forall i :: 0 <= i < |opp| ==> !Crosses(o, opp[i].price)
  {
    var b := books[o.symbol];
    FitsPresence(v, o.symbol, b, o.id);
    var opp := b.On(o.side.Opposite());
    forall i | 0 <= i < |opp|
      ensures !Crosses(o, opp[i].price)
    {
      assert RestingOrder(o.symbol, o.side.Opposite(), opp[i]);
      assert opp[i].id in v && v[opp[i].id] == opp[i];
    }
  }

  lemma {:induction false} RestoreStep(v: View, all: View, books: BookMap, o: Order)
    requires Safe(all) && AllFit(v, books) && o.symbol in books
    requires o.id in all && all[o.id] == o && o.id !in v
    requires forall id :: id in v ==> id in all && all[id] == v[id]
    ensures AllFit(v[o.id := o], RestoreOne(books, o))
  {
    RestoreFits(v, all, books, o);
    var b := books[o.symbol];
    var opp := b.On(o.side.Opposite());
    RestoreKeepsValid(o.symbol, b, o);
    hide Valid, Crosses;
    FacingSides(v, o.symbol, b, o.side.Opposite(), {});
    InsertShows(v, o.symbol, b.On(o.side), opp, {}, o);
    FacingSides(v[o.id := o], o.symbol, Restore(b, o), o.side.Opposite(), {});
    forall s | s in books && s != o.symbol
      ensures Fits(v[o.id := o], s, books[s])
    {
      FitsElsewhere(v, s, books[s], o);
    }
  }

  lemma {:induction false} FitsElsewhere(v: View, symbol: Symbol, b: Book, o: Order)
    requires Fits(v, symbol, b) && o.symbol != symbol && o.id !in v
    ensures Fits(v[o.id := o], symbol, b)
  {
  }

  /** Restoring rebuilds exactly the recovered set, in books that are sorted and uncrossed,
      in whatever order the rows come back. Orders of unknown symbols are ignored. */
  lemma {:induction false} RestoreRebuilds(v: View, all: View, books: BookMap, os: seq<Order>)
    requires Safe(all) && AllFit(v, books)
    requires forall id :: id in all ==> all[id].symbol in books
    requires forall id :: id in v ==> id in all && all[id] == v[id]
    requires Distinct(os)
    requires forall i :: 0 <= i < |os| && os[i].symbol in books ==>
               os[i].id in all && all[os[i].id] == os[i] && os[i].id !in v
    requires forall id :: id in all ==> id in v || exists i :: 0 <= i < |os| && os[i].id == id && os[i].symbol in books
    ensures AllFit(all, RestoreAll(books, os))
    decreases |os|
  {
    hide AllFit, RestoreOne, Safe;
    if os == [] {
      assert v == all;
    } else {
      var o := os[0];
      var v' := if o.symbol in books then v[o.id := o] else v;
      if o.symbol in books {
        RestoreStep(v, all, books, o);
      }
      RestoreOneKeys(books, o);
      forall i | 0 <= i < |os[1..]| && os[1..][i].symbol in books
        ensures os[1..][i].id in all && all[os[1..][i].id] == os[1..][i] && os[1..][i].id !in v'
      {
        assert os[1..][i] == os[i + 1] && os[0].id != os[i + 1].id;
      }
      forall id | id in all
        ensures id in v' || exists i :: 0 <= i < |os[1..]| && os[1..][i].id == id && os[1..][i].symbol in books
      {
        if id !in v' {
          var i :| 0 <= i < |os| && os[i].id == id && os[i].symbol in books;
          assert os[1..][i - 1] == os[i];
        }
      }
      RestoreRebuilds(v', all, RestoreOne(books, o), os[1..]);
    }
  }

  lemma {:induction false} RestoreOneKeys(books: BookMap, o: Order)
    ensures RestoreOne(books, o).Keys == books.Keys
    ensures o.symbol !in books ==> RestoreOne(books, o) == books
  {
  }

  function EmptyBooks(symbols: set<Symbol>): BookMap {
    map s | s in symbols :: EMPTY
  }

  /** The orders of v that belong to one of these symbols. */
  function Known(v: View, symbols: set<Symbol>): View {
    map id | id in v && v[id].symbol in symbols :: v[id]
  }

  /** What is in the books, or still to be restored, is in the books at the end. */
  lemma {:induction false} RestoredIsThere(books: BookMap, os: seq<Order>, o: Order)
    requires o.symbol in books && (o in os || o in books[o.symbol].On(o.side))
    ensures o.symbol in RestoreAll(books, os) && o in RestoreAll(books, os)[o.symbol].On(o.side)
    decreases |os|
  {
    if os != [] {
      var books', x := RestoreOne(books, os[0]), os[0];
      if x.symbol == o.symbol && x.side == o.side {
        var s, k := books[o.symbol].On(o.side), Place(books[o.symbol].On(o.side), x);
        var t := Insert(s, x);
        hide Place;
        assert t[k] == x;
        if o in s {
          var i :| 0 <= i < |s| && s[i] == o;
          assert t[if i < k then i else i + 1] == o;
        }
      }
      assert o in os[1..] || o in books'[o.symbol].On(o.side);
      RestoredIsThere(books', os[1..], o);
    }
  }

  /** Start-up recovery, whatever the table and the row order: the books hold exactly the
      rows of known symbols, in valid books, if those rows can rest side by side, and if
      they cannot some book is not valid. */
  lemma {:induction false} RecoveryRebuildsIff(t: Table, symbols: set<Symbol>, os: seq<Order>)
    requires Enumerates(os, Recovered(t))
    ensures var v, books := Known(Recovered(t), symbols), RestoreAll(EmptyBooks(symbols), os);
            && books.Keys == symbols
            && (Safe(v) ==> AllFit(v, books))
            && ((forall s :: s in symbols ==> Valid(s, books[s])) ==> Safe(v))
  {
    hide RestoreAll, Safe;
    var all, v, empty := Recovered(t), Known(Recovered(t), symbols), EmptyBooks(symbols);
    var books := RestoreAll(empty, os);
    RestoreAllKeys(empty, os);
    if Safe(v) {
      assert AllFit(map[], empty);
      RestoreRebuilds(map[], v, empty, os);
    }
    if forall s :: s in symbols ==> Valid(s, books[s]) {
      forall id | id in v
        ensures v[id].symbol in books && v[id] in books[v[id].symbol].On(v[id].side) && v[id].id == id
      {
        var i :| 0 <= i < |os| && os[i].id == id;
        assert v[id] in os;
        RestoredIsThere(empty, os, v[id]);
      }
      ValidIsSafe(v, books);
    }
  }

  lemma {:induction false} ValidIsSafe(v: View, books: BookMap)
    requires forall s :: s in books ==> Valid(s, books[s])
    requires forall id :: id in v ==>
               v[id].symbol in books && v[id] in books[v[id].symbol].On(v[id].side) && v[id].id == id
    ensures Safe(v)
  {
    forall id | id in v
      ensures RestingOrder(v[id].symbol, v[id].side, v[id])
    {
      var s := books[v[id].symbol].On(v[id].side);
      var i :| 0 <= i < |s| && s[i] == v[id];
      SideIsOrderly(v[id].symbol, books[v[id].symbol], v[id].side);
    }
    forall i, j | i in v && j in v && v[i].symbol == v[j].symbol && v[i].side.Buy? && v[j].side.Sell?
      ensures v[i].price < v[j].price
    {
      var b := books[v[i].symbol];
      var m :| 0 <= m < |b.bids| && b.bids[m] == v[i];
      var n :| 0 <= n < |b.asks| && b.asks[n] == v[j];
      assert Uncrossed(b.bids, b.asks);
    }
  }

  lemma {:induction false} RestoreAllKeys(books: BookMap, os: seq<Order>)
    ensures RestoreAll(books, os).Keys == books.Keys
    decreases |os|
  {
    if os != [] {
      RestoreOneKeys(books, os[0]);
      RestoreAllKeys(RestoreOne(books, os[0]), os[1..]);
    }
  }
}
