/** The UI server's market-data state: packets and snapshots applied to its dictionaries. */
module MirrorServer {
  import opened Options
  import opened Orders
  import opened Matching
  import opened Books
  import opened Views
  import opened Gateway
  import opened Mirror
  import opened Persistence
  import opened OrderIds

  // ---- Snapshots ----

  datatype Acc = Acc(sides: Sides, orders: map<Id, MdOrder>)

  /** One entry of a snapshot; entries without quantity are skipped. */
  function Absorb(a: Acc, symbol: Symbol, o: Order): Acc {
    if o.leaves <= 0 then a
    else
      var side := WireSide(o.side);
      var levels := a.sides.On(side);
      Acc(a.sides.With(side, levels[o.price := Get(levels, o.price) + o.leaves]),
          a.orders[o.id := MdOrder(o.price, o.leaves, symbol, side)])
  }

  function AbsorbAll(a: Acc, symbol: Symbol, os: seq<Order>): Acc
    decreases |os|
  {
    if os == [] then a else AbsorbAll(Absorb(a, symbol, os[0]), symbol, os[1..])
  }

  /** A snapshot replaces the symbol's levels; entries of orders it does not mention stay. */
  function Snapshot(m: Mirror.State, symbol: Symbol, os: seq<Order>): Mirror.State {
    if symbol !in m.book then m
    else
      var a := AbsorbAll(Acc(Sides(map[], map[]), m.orders), symbol, os);
      State(m.book[symbol := a.sides], a.orders)
  }

  /** The quantity of one side at one price among snapshot entries. */
  function EntryQty(os: seq<Order>, side: Side, price: Price): int {
    if os == [] then 0
    else (if os[0].side == side && os[0].price == price && os[0].leaves > 0 then os[0].leaves else 0)
         + EntryQty(os[1..], side, price)
  }

  ghost predicate Listed(sides: Sides) {
    forall side: PacketSide, p :: p in sides.On(side) ==> sides.On(side)[p] > 0
  }

  lemma {:induction false} AbsorbListed(a: Acc, symbol: Symbol, o: Order)
    requires Listed(a.sides)
    ensures Listed(Absorb(a, symbol, o).sides)
  {
    var side := WireSide(o.side);
    assert Get(a.sides.On(side), o.price) >= 0;
    var a' := Absorb(a, symbol, o);
    forall d: PacketSide, p | p in a'.sides.On(d)
      ensures a'.sides.On(d)[p] > 0
    {
      assert p in a.sides.On(d) ==> a.sides.On(d)[p] > 0;
    }
  }

  lemma {:induction false} AbsorbTotals(a: Acc, symbol: Symbol, os: seq<Order>, side: Side, price: Price)
    requires Listed(a.sides)
    ensures var a' := AbsorbAll(a, symbol, os);
            && Get(a'.sides.On(WireSide(side)), price)
               == Get(a.sides.On(WireSide(side)), price) + EntryQty(os, side, price)
            && Listed(a'.sides)
    decreases |os|
  {
    if os != [] {
      AbsorbListed(a, symbol, os[0]);
      AbsorbTotals(Absorb(a, symbol, os[0]), symbol, os[1..], side, price);
    }
  }

  lemma {:induction false} AbsorbOrders(a: Acc, symbol: Symbol, os: seq<Order>)
    requires Distinct(os) && Positive(os)
    ensures var m := AbsorbAll(a, symbol, os).orders;
            && (forall i :: 0 <= i < |os| ==>
                  os[i].id in m && m[os[i].id] == MdOrder(os[i].price, os[i].leaves, symbol, WireSide(os[i].side)))
            && (forall id :: !Holds(os, id) ==> (id in m <==> id in a.orders) && (id in m ==> m[id] == a.orders[id]))
    decreases |os|
  {
    if os != [] {
      var a1, os' := Absorb(a, symbol, os[0]), os[1..];
      forall i, j | 0 <= i < j < |os'|
        ensures os'[i].id != os'[j].id
      {
        assert os[i + 1].id != os[j + 1].id;
      }
      AbsorbOrders(a1, symbol, os');
      var m := AbsorbAll(a, symbol, os).orders;
      forall i | 0 <= i < |os|
        ensures os[i].id in m && m[os[i].id] == MdOrder(os[i].price, os[i].leaves, symbol, WireSide(os[i].side))
      {
        if i > 0 {
          assert os[i] == os'[i - 1];
        } else {
          assert !Holds(os', os[0].id);
        }
      }
      forall id | !Holds(os, id)
        ensures !Holds(os', id) && id != os[0].id
      {
      }
    }
  }

  lemma {:induction false} EntryQtyAppend(a: seq<Order>, b: seq<Order>, side: Side, price: Price)
    ensures EntryQty(a + b, side, price) == EntryQty(a, side, price) + EntryQty(b, side, price)
  {
    if a == [] {
      assert a + b == b;
    } else {
      assert (a + b)[1..] == a[1..] + b;
      EntryQtyAppend(a[1..], b, side, price);
    }
  }

  lemma {:induction false} EntryQtySide(s: seq<Order>, at: Side, side: Side, price: Price)
    requires forall i :: 0 <= i < |s| ==> s[i].side == at && s[i].leaves > 0
    ensures EntryQty(s, side, price) == if side == at then LevelQty(s, price) else 0
  {
    if s != [] {
      EntryQtySide(s[1..], at, side, price);
    }
  }

  lemma {:induction false} SidesUniform(symbol: Symbol, b: Book)
    requires Valid(symbol, b)
    ensures forall i :: 0 <= i < |b.bids| ==> b.bids[i].side == Buy && b.bids[i].leaves > 0
    ensures forall i :: 0 <= i < |b.asks| ==> b.asks[i].side == Sell && b.asks[i].leaves > 0
  {
    assert forall i :: 0 <= i < |b.bids| ==> RestingOrder(symbol, Buy, b.bids[i]);
    assert forall i :: 0 <= i < |b.asks| ==> RestingOrder(symbol, Sell, b.asks[i]);
  }

  /** A snapshot of a book gives the symbol exactly the book's levels, whatever was shown
      before, and an up-to-date entry to every resting order. */
  lemma {:induction false} SnapshotShowsBook(m: Mirror.State, symbol: Symbol, b: Book, side: Side, price: Price)
    requires Valid(symbol, b) && symbol in m.book
    ensures var m' := Snapshot(m, symbol, b.bids + b.asks);
            && symbol in m'.book && (forall s :: s in m.book && s != symbol ==> s in m'.book && m'.book[s] == m.book[s])
            && LevelShown(m', symbol, b, side, price)
  {
    hide Valid, AbsorbAll, LevelQty, EntryQty;
    var os := b.bids + b.asks;
    SidesUniform(symbol, b);
    assert Listed(Sides(map[], map[]));
    AbsorbTotals(Acc(Sides(map[], map[]), m.orders), symbol, os, side, price);
    assert Get(map[], price) == 0;
    EntryQtyAppend(b.bids, b.asks, side, price);
    EntryQtySide(b.bids, Buy, side, price);
    EntryQtySide(b.asks, Sell, side, price);
  }

  /** After a snapshot the symbol's entries are exactly the resting orders if and only if the
      mirror held no entry of that symbol for an order that no longer rests: a snapshot
      repairs the levels but does not remove stale orders. */
  lemma {:induction false} SnapshotEntriesIff(m: Mirror.State, symbol: Symbol, b: Book)
    requires Valid(symbol, b) && symbol in m.book
    ensures var m' := Snapshot(m, symbol, b.bids + b.asks);
            && (forall id :: Present(b, id) ==>
                  id in m'.orders && Lookup(b, id).Some? && m'.orders[id] == MdOf(Lookup(b, id).value))
            && ((forall id :: id in m'.orders && m'.orders[id].symbol == symbol ==> Present(b, id)) <==>
                (forall id :: id in m.orders && m.orders[id].symbol == symbol ==> Present(b, id)))
  {
    var os, m' := b.bids + b.asks, Snapshot(m, symbol, b.bids + b.asks);
    ListedOrders(symbol, b);
    AbsorbOrders(Acc(Sides(map[], map[]), m.orders), symbol, os);
    hide AbsorbAll, Valid;
    forall id | Present(b, id)
      ensures id in m'.orders && Lookup(b, id).Some? && m'.orders[id] == MdOf(Lookup(b, id).value)
      ensures m'.orders[id].symbol == symbol
    {
      assert Holds(os, id);
    }
    forall id | !Present(b, id)
      ensures (id in m'.orders <==> id in m.orders) && (id in m'.orders ==> m'.orders[id] == m.orders[id])
    {
      assert !Holds(os, id);
    }
  }

  lemma {:induction false} ListedOrders(symbol: Symbol, b: Book)
    requires Valid(symbol, b)
    ensures Distinct(b.bids + b.asks) && Positive(b.bids + b.asks)
    ensures forall id :: Holds(b.bids + b.asks, id) <==> Present(b, id)
    ensures forall i :: 0 <= i < |b.bids + b.asks| ==>
              var o := (b.bids + b.asks)[i]; o.symbol == symbol && Lookup(b, o.id) == Some(o)
  {
    hide Lookup, Holds, RestingOrder;
    var os, n := b.bids + b.asks, |b.bids|;
    SideIsOrderly(symbol, b, Buy);
    SideIsOrderly(symbol, b, Sell);
    BothHold(b.bids, b.asks);
    forall i | 0 <= i < |os|
      ensures os[i].symbol == symbol && Lookup(b, os[i].id) == Some(os[i]) && os[i].leaves > 0
    {
      FoundAt(symbol, b, if i < n then Buy else Sell, if i < n then i else i - n);
    }
  }

  lemma {:induction false} BothHold(a: seq<Order>, b: seq<Order>)
    ensures forall id :: Holds(a + b, id) <==> Holds(a, id) || Holds(b, id)
  {
    forall id | Holds(a, id) || Holds(b, id)
      ensures Holds(a + b, id)
    {
      if Holds(a, id) {
        var i :| 0 <= i < |a| && a[i].id == id;
        assert (a + b)[i].id == id;
      } else {
        var i :| 0 <= i < |b| && b[i].id == id;
        assert (a + b)[|a| + i].id == id;
      }
    }
  }

  // ---- Starting from snapshots ----

  function Snapshots(m: Mirror.State, books: BookMap, symbols: seq<Symbol>): Mirror.State
    requires forall i :: 0 <= i < |symbols| ==> symbols[i] in books
    decreases |symbols|
  {
    if symbols == [] then m
    else
      var b := books[symbols[0]];
      Snapshots(Snapshot(m, symbols[0], b.bids + b.asks), books, symbols[1..])
  }

  /** A mirror that knows the symbols and nothing else. */
  function Blank(symbols: set<Symbol>): Mirror.State {
    State(map s | s in symbols :: Sides(map[], map[]), map[])
  }

  /** The mirror shows the symbols in done, and nothing of the others. */
  ghost predicate Partly(m: Mirror.State, v: View, books: BookMap, done: set<Symbol>) {
    && m.book.Keys == books.Keys && m.orders == Md(Known(v, done))
    && (forall s :: s in books && s !in done ==> m.book[s] == Sides(map[], map[]))
    && (forall s, side: Side, price :: s in done && s in books ==> LevelShown(m, s, books[s], side, price))
  }

  lemma {:induction false} SnapshotAdds(m: Mirror.State, v: View, books: BookMap, done: set<Symbol>, s: Symbol)
    requires Partly(m, v, books, done) && AllFit(v, books) && s in books && s !in done
    ensures Partly(Snapshot(m, s, books[s].bids + books[s].asks), v, books, done + {s})
  {
    hide Valid, Shows, Keyed, AllFit, Snapshot, LevelShown, Md, Known;
    var b, m' := books[s], Snapshot(m, s, books[s].bids + books[s].asks);
    AllFitKeyed(v, books, s);
    SnapshotOrders(m, v, s, b);
    EntriesGrow(m, m', v, done, s);
    forall side: Side, price
      ensures LevelShown(m', s, b, side, price)
    {
      SnapshotShowsBook(m, s, b, side, price);
    }
    forall t, side: Side, price | t in done && t in books
      ensures LevelShown(m', t, books[t], side, price)
    {
      SameLevels(m, m', t, books[t], side, price);
    }
  }

  lemma {:induction false} EntriesGrow(m: Mirror.State, m': Mirror.State, v: View, done: set<Symbol>, s: Symbol)
    requires m.orders == Md(Known(v, done))
    requires forall id :: id in v && v[id].symbol == s ==> id in m'.orders && m'.orders[id] == MdOf(v[id])
    requires forall id :: !(id in v && v[id].symbol == s) ==>
               (id in m'.orders <==> id in m.orders) && (id in m'.orders ==> m'.orders[id] == m.orders[id])
    ensures m'.orders == Md(Known(v, done + {s}))
  {
    var w := Known(v, done + {s});
    forall id
      ensures id in m'.orders <==> id in w
      ensures id in w ==> m'.orders[id] == MdOf(w[id])
    {
      assert id in Known(v, done) <==> id in v && v[id].symbol in done;
    }
  }

  lemma {:induction false} SameLevels(
    m: Mirror.State, m': Mirror.State, s: Symbol, b: Book, side: Side, price: Price)
    requires LevelShown(m, s, b, side, price) && s in m.book && s in m'.book && m'.book[s] == m.book[s]
    ensures LevelShown(m', s, b, side, price)
  {
  }

  /** A snapshot writes the entries of the symbol's resting orders and changes no other. */
  lemma {:induction false} SnapshotOrders(m: Mirror.State, v: View, s: Symbol, b: Book)
    requires s in m.book && Valid(s, b) && Fits(v, s, b) && Keyed(v)
    ensures var m' := Snapshot(m, s, b.bids + b.asks);
            && m'.book.Keys == m.book.Keys && (forall t :: t in m.book && t != s ==> m'.book[t] == m.book[t])
            && (forall id :: id in v && v[id].symbol == s ==> id in m'.orders && m'.orders[id] == MdOf(v[id]))
            && (forall id :: !(id in v && v[id].symbol == s) ==>
                  (id in m'.orders <==> id in m.orders) && (id in m'.orders ==> m'.orders[id] == m.orders[id]))
  {
    hide Valid, Shows, Keyed, Present, Lookup, AbsorbAll;
    var os := b.bids + b.asks;
    ListedOrders(s, b);
    AbsorbOrders(Acc(Sides(map[], map[]), m.orders), s, os);
    forall id
      ensures Holds(os, id) <==> id in v && v[id].symbol == s
      ensures Holds(os, id) ==> Lookup(b, id) == Some(v[id])
    {
      FitsPresence(v, s, b, id);
    }
  }

  lemma {:induction false} SnapshotsAdd(
    m: Mirror.State, v: View, books: BookMap, done: set<Symbol>, symbols: seq<Symbol>, all: set<Symbol>)
    requires Partly(m, v, books, done) && AllFit(v, books)
    requires forall i :: 0 <= i < |symbols| ==> symbols[i] in books && symbols[i] !in done
    requires forall i, j :: 0 <= i < j < |symbols| ==> symbols[i] != symbols[j]
    requires forall s :: s in all <==> s in done || s in symbols
    ensures Partly(Snapshots(m, books, symbols), v, books, all)
    decreases |symbols|
  {
    hide Partly, AllFit, Snapshot;
    if symbols == [] {
      assert all == done;
    } else {
      var s := symbols[0];
      SnapshotAdds(m, v, books, done, s);
      SnapshotsAdd(Snapshot(m, s, books[s].bids + books[s].asks), v, books, done + {s}, symbols[1..], all);
    }
  }

  lemma {:induction false} ShownIsMirrored(m: Mirror.State, v: View, books: BookMap)
    requires Partly(m, v, books, books.Keys) && AllFit(v, books) && forall id :: id in v ==> v[id].symbol in books
    ensures Mirrors(m, v)
  {
    hide AllFit, Shown, Sum, LevelQty;
    assert Known(v, books.Keys) == v;
    forall s, side: PacketSide, p | !side.TradeSide?
      ensures Shown(m, s, side, p) == Sum(m.orders, s, side, p)
      ensures s in m.book && p in m.book[s].On(side) ==> Shown(m, s, side, p) > 0
    {
      if s in books {
        var d := if side.BidSide? then Buy else Sell;
        assert LevelShown(m, s, books[s], d, p);
        AllFitKeyed(v, books, s);
        SideIsAll(v, s, books[s], d);
        SumIsLevelQty(v, books[s].On(d), s, d, p);
      } else {
        SumNone(m.orders, s, side, p);
        NotShown(m, s, side, p);
      }
    }
    assert NoEmptyLevels(m.book) by { ListedIsPositive(m); }
    BooksAreQtys(v, books);
  }

  lemma {:induction false} NotShown(m: Mirror.State, s: Symbol, side: PacketSide, p: Price)
    requires s !in m.book
    ensures Shown(m, s, side, p) == 0
  {
  }

  lemma {:induction false} ListedIsPositive(m: Mirror.State)
    requires forall s, side: PacketSide, p :: !side.TradeSide? && s in m.book && p in m.book[s].On(side) ==>
               Shown(m, s, side, p) > 0
    ensures NoEmptyLevels(m.book)
  {
    forall s, side: PacketSide, p | s in m.book && p in m.book[s].On(side)
      ensures m.book[s].On(side)[p] > 0
    {
      var d := if side.BidSide? then BidSide else AskSide;
      assert p in m.book[s].On(d) && Shown(m, s, d, p) > 0;
    }
  }

  lemma {:induction false} BooksAreQtys(v: View, books: BookMap)
    requires AllFit(v, books) && forall id :: id in v ==> v[id].symbol in books
    ensures Qtys(Md(v))
  {
    hide AllFit;
    forall id | id in v
      ensures v[id].leaves > 0
    {
      var s := v[id].symbol;
      AllFitKeyed(v, books, s);
      FitsPresence(v, s, books[s], id);
      LookupFinds(s, books[s], id);
    }
  }

  /** A mirror that has been sent a snapshot of every symbol, in any order, and nothing else
      shows exactly the resting orders. */
  lemma {:induction false} SnapshotsMirror(v: View, books: BookMap, symbols: seq<Symbol>)
    requires AllFit(v, books) && forall id :: id in v ==> v[id].symbol in books
    requires forall i, j :: 0 <= i < j < |symbols| ==> symbols[i] != symbols[j]
    requires forall s :: s in books <==> s in symbols
    ensures Mirrors(Snapshots(Blank(books.Keys), books, symbols), v)
  {
    hide AllFit, Snapshots, Mirrors;
    var m := Blank(books.Keys);
    assert Known(v, {}) == map[];
    assert m.orders == Md(Known(v, {}));
    assert Partly(m, v, books, {});
    SnapshotsAdd(m, v, books, {}, symbols, books.Keys);
    ShownIsMirrored(Snapshots(m, books, symbols), v, books);
  }

  // ---- The server object ----

  class MarketData {
    var book: map<Symbol, Sides>
    var orders: map<Id, MdOrder>

    ghost function View(): Mirror.State
      reads this
    {
      State(book, orders)
    }

    constructor (symbols: set<Symbol>)
      ensures View() == State(map s | s in symbols :: Sides(map[], map[]), map[])
    {
      book := map s | s in symbols :: Sides(map[], map[]);
      orders := map[];
    }

    /** Change the total at a price; a level that reaches zero disappears. */
    method AddToLevel(symbol: Symbol, side: PacketSide, price: Price, delta: int)
      requires symbol in book
      modifies this`book
      ensures book == Bump(old(book), symbol, side, price, delta)
    {
      var levels := book[symbol].On(side);
      var qty := Get(levels, price) + delta;
      levels := if qty <= 0 then levels - {price} else levels[price := qty];
      book := book[symbol := book[symbol].With(side, levels)];
    }

    method ApplyPacket(p: Packet)
      modifies this
      ensures View() == ApplyMd(old(View()), p)
    {
      if p.symbol !in book {
        book := book[p.symbol := Sides(map[], map[])];
      }
      if p.side == TradeSide {
        return;
      }
      match p.kind {
        case NewOrderPkt | ReplaceNewPkt =>
          orders := orders[p.id := MdOrder(p.price, p.qty, p.symbol, p.side)];
          AddToLevel(p.symbol, p.side, p.price, p.qty);
        case CancelPkt | ReplaceDeletePkt =>
          if p.id in orders {
            var prev := orders[p.id];
            orders := orders - {p.id};
            AddToLevel(p.symbol, p.side, prev.price, -prev.qty);
          }
        case FillRestingPkt =>
          if p.id in orders {
            var prev := orders[p.id];
            AddToLevel(p.symbol, p.side, prev.price, p.qty - prev.qty);
            orders := if p.qty == 0 then orders - {p.id} else orders[p.id := prev.(qty := p.qty)];
          }
        case ReplaceInPlacePkt =>
          if p.id in orders {
            var prev := orders[p.id];
            AddToLevel(p.symbol, p.side, prev.price, p.qty - prev.qty);
            orders := orders[p.id := prev.(qty := p.qty)];
          }
        case TradePkt =>
      }
    }

    method ProcessSnapshot(symbol: Symbol, os: seq<Order>)
      modifies this
      ensures View() == Snapshot(old(View()), symbol, os)
    {
      if symbol !in book {
        return;
      }
      var sides := Sides(map[], map[]);
      for i := 0 to |os|
        invariant book == old(book)
        invariant AbsorbAll(Acc(Sides(map[], map[]), old(orders)), symbol, os)
                  == AbsorbAll(Acc(sides, orders), symbol, os[i..])
      {
        var o := os[i];
        if o.leaves > 0 {
          var side := WireSide(o.side);
          var levels := sides.On(side);
          sides := sides.With(side, levels[o.price := Get(levels, o.price) + o.leaves]);
          orders := orders[o.id := MdOrder(o.price, o.leaves, symbol, side)];
        }
      }
      book := book[symbol := sides];
    }
  }

  // ---- Fixed-width text fields of a packet ----

  const NUL: char := 0 as char

  function FillFixed(s: string, n: nat): string {
    if |s| >= n then s[..n] else s + seq(n - |s|, _ => NUL)
  }

  function RStrip(s: string): string {
    if s != "" && s[|s| - 1] == NUL then RStrip(s[..|s| - 1]) else s
  }

  lemma {:induction false} RStripPadding(s: string, k: nat)
    ensures RStrip(s + seq(k, _ => NUL)) == RStrip(s)
  {
    var t := s + seq(k, _ => NUL);
    if k == 0 {
      assert t == s;
    } else {
      assert t[..|t| - 1] == s + seq(k - 1, _ => NUL);
      RStripPadding(s, k - 1);
    }
  }

  lemma {:induction false} RStripShortens(s: string)
    ensures |RStrip(s)| <= |s|
  {
    if s != "" && s[|s| - 1] == NUL {
      RStripShortens(s[..|s| - 1]);
    }
  }

  /** A text survives its n-byte packet field exactly if it fits and does not end in NUL. */
  lemma {:induction false} FixedFieldRoundTripIff(s: string, n: nat)
    ensures RStrip(FillFixed(s, n)) == s <==> |s| <= n && (s == "" || s[|s| - 1] != 0 as char)
  {
    RStripShortens(FillFixed(s, n));
    if |s| <= n {
      assert FillFixed(s, n) == s + seq(n - |s|, _ => NUL);
      RStripPadding(s, n - |s|);
      if s != "" && s[|s| - 1] == NUL {
        RStripShortens(s[..|s| - 1]);
      }
    }
  }

  const ID_WIDTH := 16

  /** Exactly the ids below one hundred thousand million survive the packet's id field, and
      so do all that a 32-bit counter can issue. */
  lemma {:induction false} IdSurvivesWireIff(n: nat)
    ensures RStrip(FillFixed(Text(n), ID_WIDTH)) == Text(n) <==> n < 100_000_000_000
    ensures n < 0x8000_0000 ==> RStrip(FillFixed(Text(n), ID_WIDTH)) == Text(n)
  {
    hide RStrip, FillFixed;
    FixedFieldRoundTripIff(Text(n), ID_WIDTH);
    DigitsFitIff(n, 11);
    assert Pow10(11) == 100_000_000_000 by { ElevenDigits(); }
    var s := Text(n);
    assert s[|s| - 1] == Digits(n)[|Digits(n)| - 1];
    assert IsDigit(s[|s| - 1]);
  }

  lemma {:induction false} ElevenDigits()
    ensures Pow10(11) == 100_000_000_000
  {
    assert Pow10(3) == 1000;
    assert Pow10(6) == 1000 * Pow10(3);
    assert Pow10(9) == 1000 * Pow10(6);
  }
}
