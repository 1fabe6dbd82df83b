/** The UI's copy of the book: per-order state and per-price totals, rebuilt from packets. */
module Mirror {
  import opened Options
  import opened Orders
  import opened Matching
  import opened Books
  import opened Engine
  import opened Views
  import opened Gateway
  import opened Publishing

  datatype MdOrder = MdOrder(price: Price, qty: int, symbol: Symbol, side: PacketSide)

  datatype Sides = Sides(bids: map<Price, int>, asks: map<Price, int>)
  {
    function On(side: PacketSide): map<Price, int> {
      if side.BidSide? then bids else asks
    }

    function With(side: PacketSide, levels: map<Price, int>): Sides {
      if side.BidSide? then Sides(levels, asks) else Sides(bids, levels)
    }
  }

  datatype State = State(book: map<Symbol, Sides>, orders: map<Id, MdOrder>)

  function Get(levels: map<Price, int>, price: Price): int {
    if price in levels then levels[price] else 0
  }

  function SetLevel(levels: map<Price, int>, price: Price, qty: int): map<Price, int> {
    if qty <= 0 then levels - {price} else levels[price := qty]
  }

  function Ensure(book: map<Symbol, Sides>, symbol: Symbol): map<Symbol, Sides> {
    if symbol in book then book else book[symbol := Sides(map[], map[])]
  }

  /** Add delta to the total at one price. */
  function Bump(
    book: map<Symbol, Sides>, symbol: Symbol, side: PacketSide, price: Price, delta: int): map<Symbol, Sides>
    requires symbol in book
  {
    var levels := book[symbol].On(side);
    book[symbol := book[symbol].With(side, SetLevel(levels, price, Get(levels, price) + delta))]
  }

  function ApplyMd(m: State, p: Packet): State {
    var book := Ensure(m.book, p.symbol);
    if p.side.TradeSide? then State(book, m.orders)
    else match p.kind
      case NewOrderPkt | ReplaceNewPkt =>
        State(Bump(book, p.symbol, p.side, p.price, p.qty),
              m.orders[p.id := MdOrder(p.price, p.qty, p.symbol, p.side)])
      case CancelPkt | ReplaceDeletePkt =>
        if p.id !in m.orders then State(book, m.orders)
        else
          var prev := m.orders[p.id];
          State(Bump(book, p.symbol, p.side, prev.price, -prev.qty), m.orders - {p.id})
      case FillRestingPkt =>
        if p.id !in m.orders then State(book, m.orders)
        else
          var prev := m.orders[p.id];
          State(Bump(book, p.symbol, p.side, prev.price, p.qty - prev.qty),
                if p.qty == 0 then m.orders - {p.id} else m.orders[p.id := prev.(qty := p.qty)])
      case ReplaceInPlacePkt =>
        if p.id !in m.orders then State(book, m.orders)
        else
          var prev := m.orders[p.id];
          State(Bump(book, p.symbol, p.side, prev.price, p.qty - prev.qty), m.orders[p.id := prev.(qty := p.qty)])
      case TradePkt => State(book, m.orders)
  }

  function ApplyMds(m: State, ps: seq<Packet>): State
    decreases |ps|
  {
    if ps == [] then m else ApplyMds(ApplyMd(m, ps[0]), ps[1..])
  }

  lemma {:induction false} ApplyMdsAppend(m: State, a: seq<Packet>, b: seq<Packet>)
    ensures ApplyMds(m, a + b) == ApplyMds(ApplyMds(m, a), b)
    decreases |a|
  {
    if a == [] {
      assert a + b == b;
    } else {
      assert (a + b)[1..] == a[1..] + b;
      ApplyMdsAppend(ApplyMd(m, a[0]), a[1..], b);
    }
  }

  // ---- Totals over a finite map ----

  function At(o: MdOrder, symbol: Symbol, side: PacketSide, price: Price): int {
    if o.symbol == symbol && o.side == side && o.price == price then o.qty else 0
  }

  ghost function Pick(orders: map<Id, MdOrder>): (id: Id)
    requires orders != map[]
    ensures id in orders
  {
    var id :| id in orders;
    id
  }

  ghost function Sum(orders: map<Id, MdOrder>, symbol: Symbol, side: PacketSide, price: Price): int
    decreases |orders|
  {
    if orders == map[] then 0
    else
      var id := Pick(orders);
      assert orders.Keys - {id} < orders.Keys;
      At(orders[id], symbol, side, price) + Sum(orders - {id}, symbol, side, price)
  }

  lemma {:induction false} SumSplit(orders: map<Id, MdOrder>, id: Id, symbol: Symbol, side: PacketSide, price: Price)
    requires id in orders
    ensures Sum(orders, symbol, side, price)
         == At(orders[id], symbol, side, price) + Sum(orders - {id}, symbol, side, price)
    decreases |orders|
  {
    var k := Pick(orders);
    if k != id {
      assert orders.Keys - {k} < orders.Keys && orders.Keys - {id} < orders.Keys;
      SumSplit(orders - {k}, id, symbol, side, price);
      SumSplit(orders - {id}, k, symbol, side, price);
      assert (orders - {k}) - {id} == (orders - {id}) - {k};
    }
  }

  ghost predicate Qtys(orders: map<Id, MdOrder>) {
    forall id :: id in orders ==> orders[id].qty > 0 && !orders[id].side.TradeSide?
  }

  lemma {:induction false} SumSign(orders: map<Id, MdOrder>, symbol: Symbol, side: PacketSide, price: Price)
    requires Qtys(orders)
    ensures Sum(orders, symbol, side, price) >= 0
    decreases |orders|
  {
    if orders != map[] {
      var id := Pick(orders);
      assert orders.Keys - {id} < orders.Keys;
      SumSign(orders - {id}, symbol, side, price);
    }
  }

  /** The total the mirror shows at one price. */
  function Shown(m: State, symbol: Symbol, side: PacketSide, price: Price): int {
    if symbol in m.book then Get(m.book[symbol].On(side), price) else 0
  }

  /** No price is listed with nothing resting at it. */
  ghost predicate NoEmptyLevels(book: map<Symbol, Sides>) {
    forall s, side: PacketSide, p :: s in book && p in book[s].On(side) ==> book[s].On(side)[p] > 0
  }

  /** Every level shows the sum of its orders. */
  ghost predicate Consistent(m: State) {
    && Qtys(m.orders) && NoEmptyLevels(m.book)
    && forall s, side: PacketSide, p :: !side.TradeSide? ==> Shown(m, s, side, p) == Sum(m.orders, s, side, p)
  }

  /** One order's entry changes from prev to next at one price; the level moves by the difference. */
  lemma {:induction false} BumpKeeps(m: State, m': State, symbol: Symbol, side: PacketSide, price: Price, delta: int)
    requires Consistent(m) && Qtys(m'.orders) && !side.TradeSide?
    requires m'.book == Bump(Ensure(m.book, symbol), symbol, side, price, delta)
    requires forall s, d: PacketSide, p :: !d.TradeSide? ==>
               Sum(m'.orders, s, d, p)
               == Sum(m.orders, s, d, p) + if s == symbol && d == side && p == price then delta else 0
    ensures Consistent(m')
  {
    hide Sum;
    forall s, d: PacketSide, p | !d.TradeSide?
      ensures Shown(m', s, d, p) == Sum(m'.orders, s, d, p)
    {
      SumSign(m'.orders, s, d, p);
      assert Shown(m, s, d, p) == Sum(m.orders, s, d, p);
    }
  }

  lemma {:induction false} SumChange(
    orders: map<Id, MdOrder>, id: Id, next: MdOrder, s: Symbol, d: PacketSide, p: Price)
    ensures Sum(orders[id := next], s, d, p)
         == Sum(orders, s, d, p) + At(next, s, d, p) - if id in orders then At(orders[id], s, d, p) else 0
  {
    SumSplit(orders[id := next], id, s, d, p);
    assert orders[id := next] - {id} == orders - {id};
    if id in orders {
      SumSplit(orders, id, s, d, p);
    } else {
      assert orders - {id} == orders;
    }
  }

  /** A book-side packet that is about the order it names. */
  ghost predicate Addressed(m: State, p: Packet) {
    && !p.side.TradeSide?
    && match p.kind {
         case NewOrderPkt | ReplaceNewPkt => p.id !in m.orders && p.qty > 0
         case CancelPkt | ReplaceDeletePkt => p.id in m.orders
         case FillRestingPkt => p.id in m.orders && p.qty >= 0
         case ReplaceInPlacePkt => p.id in m.orders && p.qty > 0
         case TradePkt => false
       }
    && (p.id in m.orders ==> m.orders[p.id].symbol == p.symbol && m.orders[p.id].side == p.side)
  }

  /** Packets about the orders they name keep every level equal to the sum of its orders. */
  lemma {:induction false} ApplyMdKeeps(m: State, p: Packet)
    requires Consistent(m) && (p.side.TradeSide? || Addressed(m, p))
    ensures Consistent(ApplyMd(m, p))
  {
    hide Consistent, Sum;
    if p.side.TradeSide? {
      TradeKeeps(m, p.symbol);
    } else {
      var m' := ApplyMd(m, p);
      var price := if p.id in m.orders then m.orders[p.id].price else p.price;
      var was := if p.id in m.orders then m.orders[p.id].qty else 0;
      var now := if p.kind.CancelPkt? || p.kind.ReplaceDeletePkt? then 0 else p.qty;
      StaysPositive(m, p);
      assert m'.book == Bump(Ensure(m.book, p.symbol), p.symbol, p.side, price, now - was);
      forall s, d: PacketSide, q | !d.TradeSide?
        ensures Sum(m'.orders, s, d, q)
             == Sum(m.orders, s, d, q) + if s == p.symbol && d == p.side && q == price then now - was else 0
      {
        SumMoves(m, p, s, d, q);
      }
      hide ApplyMd, Bump, Ensure;
      BumpKeeps(m, m', p.symbol, p.side, price, now - was);
    }
  }

  /** A packet changes the sum at its order's price and no other. */
  lemma {:induction false} SumMoves(m: State, p: Packet, s: Symbol, d: PacketSide, q: Price)
    requires Addressed(m, p)
    ensures var price := if p.id in m.orders then m.orders[p.id].price else p.price;
            var was := if p.id in m.orders then m.orders[p.id].qty else 0;
            var now := if p.kind.CancelPkt? || p.kind.ReplaceDeletePkt? then 0 else p.qty;
            Sum(ApplyMd(m, p).orders, s, d, q)
            == Sum(m.orders, s, d, q) + if s == p.symbol && d == p.side && q == price then now - was else 0
  {
    hide Sum, Bump, Ensure;
    var m' := ApplyMd(m, p);
    if p.id in m'.orders {
      SumChange(m.orders, p.id, m'.orders[p.id], s, d, q);
    } else {
      SumSplit(m.orders, p.id, s, d, q);
    }
  }

  lemma {:induction false} StaysPositive(m: State, p: Packet)
    requires Consistent(m) && Addressed(m, p)
    ensures Qtys(ApplyMd(m, p).orders)
  {
  }

  lemma {:induction false} TradeKeeps(m: State, symbol: Symbol)
    requires Consistent(m)
    ensures Consistent(State(Ensure(m.book, symbol), m.orders))
  {
    hide Sum;
    var m' := State(Ensure(m.book, symbol), m.orders);
    forall s, d: PacketSide, p | !d.TradeSide?
      ensures Shown(m', s, d, p) == Sum(m.orders, s, d, p)
    {
      assert Shown(m, s, d, p) == Sum(m.orders, s, d, p);
    }
  }

  // ---- Following the published orders ----

  function MdOf(o: Order): MdOrder {
    MdOrder(o.price, o.leaves, o.symbol, WireSide(o.side))
  }

  function Md(p: View): map<Id, MdOrder> {
    map id | id in p :: MdOf(p[id])
  }

  /** The mirror shows exactly the published orders, and each level their sum. */
  ghost predicate Mirrors(m: State, p: View) {
    m.orders == Md(p) && Consistent(m)
  }

  lemma {:induction false} NotifyMirrors(m: State, g: Gw, p: View, c: Callback)
    requires Mirrors(m, p) && Sound(g, p, c) && Keyed(p)
    ensures Mirrors(ApplyMds(m, Notify(g, c).packets), Publish(g, p, c))
  {
    hide Mirrors, ApplyMds, ApplyMd, Keyed, Consistent;
    NoPackets(m);
    match c
    case OnFill(t) => FillMirrors(m, p, t);
    case OnReplace(q, found, leaves) =>
      if g.Knows(q.id) && found {
        ReplaceMirrors(m, p, q, leaves);
      }
    case OnTifCancel(_) =>
    case OnRested(o, leaves) => RestedMirrors(m, p, o, leaves);
    case OnCancel(q, found) =>
      if g.Knows(q.id) && found {
        CancelMirrors(m, p, g.active[q.id], q);
      }
  }

  lemma {:induction false} RestedMirrors(m: State, p: View, o: Order, leaves: int)
    requires Mirrors(m, p) && o.id !in p && leaves > 0
    ensures Mirrors(ApplyMds(m, [Packet(NewOrderPkt, WireSide(o.side), o.symbol, o.price, leaves, o.id)]),
              p[o.id := o.(leaves := leaves)])
  {
    hide Consistent;
    var pkt := Packet(NewOrderPkt, WireSide(o.side), o.symbol, o.price, leaves, o.id);
    OnePacket(m, pkt);
    ApplyMdKeeps(m, pkt);
    assert ApplyMd(m, pkt).orders == Md(p[o.id := o.(leaves := leaves)]);
  }

  lemma {:induction false} CancelMirrors(m: State, p: View, o: Order, c: CancelReq)
    requires Mirrors(m, p) && c.id in p && o.id == c.id && o.symbol == p[c.id].symbol && o.side == p[c.id].side
    ensures Mirrors(ApplyMds(m, [Packet(CancelPkt, WireSide(o.side), o.symbol, o.price, 0, o.id)]), p - {c.id})
  {
    hide Consistent;
    var pkt := Packet(CancelPkt, WireSide(o.side), o.symbol, o.price, 0, o.id);
    OnePacket(m, pkt);
    ApplyMdKeeps(m, pkt);
    assert ApplyMd(m, pkt).orders == Md(p - {c.id});
  }

  lemma {:induction false} NoPackets(m: State)
    ensures ApplyMds(m, []) == m
  {
  }

  lemma {:induction false} OnePacket(m: State, a: Packet)
    ensures ApplyMds(m, [a]) == ApplyMd(m, a)
  {
    assert [a][1..] == [];
  }

  lemma {:induction false} TwoPackets(m: State, a: Packet, b: Packet)
    ensures ApplyMds(m, [a, b]) == ApplyMd(ApplyMd(m, a), b)
  {
    assert [a, b][1..] == [b] && [b][1..] == [];
    assert ApplyMds(m, [a, b]) == ApplyMds(ApplyMd(m, a), [b]);
  }

  lemma {:induction false} FillMirrors(m: State, p: View, t: Trade)
    requires Mirrors(m, p) && t.maker.id in p && 0 <= t.maker.leaves
    requires p[t.maker.id].symbol == t.maker.symbol && p[t.maker.id].side == t.maker.side
    ensures Mirrors(ApplyMds(m, FillPackets(t.maker)), Effect(p, OnFill(t)))
  {
    hide Consistent;
    var ps := FillPackets(t.maker);
    var m1 := ApplyMd(m, ps[0]);
    ApplyMdKeeps(m, ps[0]);
    ApplyMdKeeps(m1, ps[1]);
    TwoPackets(m, ps[0], ps[1]);
    assert m1.orders == Md(Effect(p, OnFill(t)));
  }

  lemma {:induction false} ReplaceMirrors(m: State, p: View, q: ReplaceReq, leaves: int)
    requires Mirrors(m, p) && q.id in p && leaves > 0
    requires p[q.id].symbol == q.symbol && p[q.id].side == q.side
    ensures Mirrors(ApplyMds(m, ReplacePackets(q, leaves, p[q.id].price)), Effect(p, OnReplace(q, true, leaves)))
  {
    hide Consistent;
    var ps := ReplacePackets(q, leaves, p[q.id].price);
    var m1 := ApplyMd(m, ps[0]);
    ApplyMdKeeps(m, ps[0]);
    if |ps| == 1 {
      assert ps[1..] == [];
      assert m1.orders == Md(Effect(p, OnReplace(q, true, leaves)));
    } else {
      ApplyMdKeeps(m1, ps[1]);
      TwoPackets(m, ps[0], ps[1]);
      assert ApplyMd(m1, ps[1]).orders == Md(Effect(p, OnReplace(q, true, leaves)));
    }
  }

  lemma {:induction false} PublishKeyed(g: Gw, p: View, c: Callback)
    requires Keyed(p)
    ensures Keyed(Publish(g, p, c))
  {
  }

  lemma {:induction false} AllMirrors(m: State, g: Gw, p: View, cs: seq<Callback>)
    requires Mirrors(m, p) && AllSound(g, p, cs) && Keyed(p)
    ensures Mirrors(ApplyMds(m, NotifyAll(g, cs).packets), PublishAll(g, p, cs))
    decreases |cs|
  {
    hide Mirrors, Notify, Publish, Sound, Keyed;
    if cs != [] {
      var first := Notify(g, cs[0]);
      NotifyMirrors(m, g, p, cs[0]);
      PublishKeyed(g, p, cs[0]);
      AllMirrors(ApplyMds(m, first.packets), first.gw, Publish(g, p, cs[0]), cs[1..]);
      ApplyMdsAppend(m, first.packets, NotifyAll(first.gw, cs[1..]).packets);
    }
  }

  // ---- The levels of a book ----

  lemma {:induction false} SumNone(orders: map<Id, MdOrder>, symbol: Symbol, side: PacketSide, price: Price)
    requires forall id :: id in orders && orders[id].symbol == symbol ==> orders[id].side != side
    ensures Sum(orders, symbol, side, price) == 0
    decreases |orders|
  {
    if orders != map[] {
      var id := Pick(orders);
      assert orders.Keys - {id} < orders.Keys;
      SumNone(orders - {id}, symbol, side, price);
    }
  }

  lemma {:induction false} SumIsLevelQty(v: View, s: seq<Order>, symbol: Symbol, side: Side, price: Price)
    requires Lists(v, s) && Distinct(s) && Keyed(v)
    requires forall i :: 0 <= i < |s| ==> s[i].symbol == symbol && s[i].side == side
    requires forall id :: id in v && v[id].symbol == symbol && v[id].side == side ==> v[id] in s
    ensures Sum(Md(v), symbol, WireSide(side), price) == LevelQty(s, price)
    decreases |s|
  {
    hide Sum;
    if s == [] {
      SumNone(Md(v), symbol, WireSide(side), price);
    } else {
      var v' := v - {s[0].id};
      SumSplit(Md(v), s[0].id, symbol, WireSide(side), price);
      assert Md(v) - {s[0].id} == Md(v');
      forall i | 0 <= i < |s[1..]|
        ensures s[1..][i].id in v' && v'[s[1..][i].id] == s[1..][i]
      {
        assert s[0].id != s[i + 1].id;
      }
      forall id | id in v' && v'[id].symbol == symbol && v'[id].side == side
        ensures v'[id] in s[1..]
      {
        var i :| 0 <= i < |s| && s[i] == v[id];
        assert s[1..][i - 1] == v[id];
      }
      SumIsLevelQty(v', s[1..], symbol, side, price);
    }
  }

  /** A mirror that shows exactly the resting orders has, at every price of every side, the
      quantity resting there, and lists no other price. */
  lemma {:induction false} MirrorShowsBook(m: State, v: View, symbol: Symbol, b: Book, side: Side, price: Price)
    requires Mirrors(m, v) && Fits(v, symbol, b) && Valid(symbol, b) && Keyed(v)
    ensures Shown(m, symbol, WireSide(side), price) == LevelQty(b.On(side), price)
    ensures symbol in m.book && price in m.book[symbol].On(WireSide(side)) <==> LevelQty(b.On(side), price) > 0
  {
    SideIsAll(v, symbol, b, side);
    SumIsLevelQty(v, b.On(side), symbol, side, price);
  }

  lemma {:induction false} SideIsAll(v: View, symbol: Symbol, b: Book, side: Side)
    requires Fits(v, symbol, b) && Valid(symbol, b)
    ensures Lists(v, b.On(side)) && Distinct(b.On(side))
    ensures forall i :: 0 <= i < |b.On(side)| ==> b.On(side)[i].symbol == symbol && b.On(side)[i].side == side
    ensures forall id :: id in v && v[id].symbol == symbol && v[id].side == side ==> v[id] in b.On(side)
  {
    assert forall d: Side, i :: 0 <= i < |b.On(d)| ==> RestingOrder(symbol, d, b.On(d)[i]);
    forall id | id in v && v[id].symbol == symbol && v[id].side == side
      ensures v[id] in b.On(side)
    {
      var d := if v[id] in b.bids then Buy else Sell;
      var i :| 0 <= i < |b.On(d)| && b.On(d)[i] == v[id];
      assert RestingOrder(symbol, d, b.On(d)[i]);
    }
  }

  // ---- Entries without quantity ----

  /** The mirror without these entries. */
  function Strip(m: State, blanks: set<Id>): State {
    State(m.book, m.orders - blanks)
  }

  predicate Spares(p: Packet, blanks: set<Id>) {
    !p.side.TradeSide? ==> p.id !in blanks
  }

  predicate SameEntries(m: State, m': State, ids: set<Id>) {
    forall id :: id in ids ==>
      (id in m'.orders <==> id in m.orders) && (id in m.orders ==> m'.orders[id] == m.orders[id])
  }

  lemma {:induction false} StripCommutes(m: State, p: Packet, blanks: set<Id>)
    requires Spares(p, blanks)
    ensures ApplyMd(Strip(m, blanks), p) == Strip(ApplyMd(m, p), blanks) && SameEntries(m, ApplyMd(m, p), blanks)
  {
    hide Bump, Ensure;
    if !p.side.TradeSide? {
      var prev := if p.id in m.orders then m.orders[p.id] else MdOrder(0, 0, "", p.side);
      WrittenApart(m.orders, blanks, p.id, MdOrder(p.price, p.qty, p.symbol, p.side));
      WrittenApart(m.orders, blanks, p.id, prev.(qty := p.qty));
    }
  }

  lemma {:induction false} WrittenApart(orders: map<Id, MdOrder>, blanks: set<Id>, id: Id, o: MdOrder)
    requires id !in blanks
    ensures (orders - blanks)[id := o] == orders[id := o] - blanks
    ensures (orders - blanks) - {id} == (orders - {id}) - blanks
  {
  }

  lemma {:induction false} AllStripCommute(m: State, ps: seq<Packet>, blanks: set<Id>)
    requires forall i :: 0 <= i < |ps| ==> Spares(ps[i], blanks)
    ensures ApplyMds(Strip(m, blanks), ps) == Strip(ApplyMds(m, ps), blanks) && SameEntries(m, ApplyMds(m, ps), blanks)
    decreases |ps|
  {
    hide ApplyMd, Strip, Spares;
    if ps != [] {
      StripCommutes(m, ps[0], blanks);
      AllStripCommute(ApplyMd(m, ps[0]), ps[1..], blanks);
    }
  }

  /** Sound messages name published orders, or the one that now rests. */
  lemma {:induction false} PacketsSpare(g: Gw, p: View, cs: seq<Callback>, blanks: set<Id>)
    requires AllSound(g, p, cs) && blanks !! p.Keys
    requires forall i :: 0 <= i < |cs| && cs[i].OnRested? ==> cs[i].order.id !in blanks
    ensures forall i :: 0 <= i < |NotifyAll(g, cs).packets| ==> Spares(NotifyAll(g, cs).packets[i], blanks)
    decreases |cs|
  {
    if cs != [] {
      FirstSpares(g, p, cs[0], blanks);
      hide Notify, Publish, Sound, Spares;
      PacketsSpare(Notify(g, cs[0]).gw, Publish(g, p, cs[0]), cs[1..], blanks);
    }
  }

  lemma {:induction false} FirstSpares(g: Gw, p: View, c: Callback, blanks: set<Id>)
    requires Sound(g, p, c) && blanks !! p.Keys && (c.OnRested? ==> c.order.id !in blanks)
    ensures forall i :: 0 <= i < |Notify(g, c).packets| ==> Spares(Notify(g, c).packets[i], blanks)
    ensures blanks !! Publish(g, p, c).Keys
  {
  }

  /** The mirror follows, entries without quantity aside, and those stay as they are. */
  lemma {:induction false} AllMirrorsBut(m: State, g: Gw, p: View, cs: seq<Callback>, blanks: set<Id>)
    requires Mirrors(Strip(m, blanks), p) && AllSound(g, p, cs) && Keyed(p) && blanks !! p.Keys
    requires forall i :: 0 <= i < |cs| && cs[i].OnRested? ==> cs[i].order.id !in blanks
    ensures var m' := ApplyMds(m, NotifyAll(g, cs).packets);
            Mirrors(Strip(m', blanks), PublishAll(g, p, cs)) && SameEntries(m, m', blanks)
  {
    hide Mirrors, Strip, ApplyMds, NotifyAll, PublishAll, AllSound, Spares;
    PacketsSpare(g, p, cs, blanks);
    AllStripCommute(m, NotifyAll(g, cs).packets, blanks);
    AllMirrors(Strip(m, blanks), g, p, cs);
  }

  /** A replace to nothing at another price leaves the levels right and an entry without quantity. */
  lemma {:induction false} BlankMirrors(m: State, p: View, q: ReplaceReq, blanks: set<Id>)
    requires Mirrors(Strip(m, blanks), p) && blanks !! p.Keys && q.id in p && p[q.id].price != q.price
    requires p[q.id].symbol == q.symbol && p[q.id].side == q.side
    ensures var m' := ApplyMds(m, ReplacePackets(q, 0, p[q.id].price));
            && Mirrors(Strip(m', blanks + {q.id}), p - {q.id}) && SameEntries(m, m', blanks)
            && q.id in m'.orders && m'.orders[q.id] == MdOrder(q.price, 0, q.symbol, WireSide(q.side))
  {
    hide Consistent, ApplyMds, ApplyMd;
    var ps := ReplacePackets(q, 0, p[q.id].price);
    TwoPackets(m, ps[0], ps[1]);
    StripCommutes(m, ps[0], blanks);
    var m1, n := ApplyMd(m, ps[0]), ApplyMd(Strip(m, blanks), ps[0]);
    assert q.id in Strip(m, blanks).orders;
    ApplyMdKeeps(Strip(m, blanks), ps[0]);
    Deleted(Strip(m, blanks), p, ps[0]);
    LevelsFilled(n);
    BlankAdded(m1, ps[1]);
    assert Strip(ApplyMd(m1, ps[1]), blanks + {q.id}).orders == n.orders;
    assert Strip(ApplyMd(m1, ps[1]), blanks + {q.id}) == n;
  }

  lemma {:induction false} LevelsFilled(m: State)
    requires Consistent(m)
    ensures NoEmptyLevels(m.book)
  {
  }

  lemma {:induction false} Deleted(m: State, p: View, k: Packet)
    requires m.orders == Md(p) && k.id in p && k.kind.ReplaceDeletePkt? && !k.side.TradeSide?
    ensures ApplyMd(m, k).orders == Md(p - {k.id}) && k.symbol in ApplyMd(m, k).book
  {
  }

  lemma {:induction false} BlankAdded(m: State, k: Packet)
    requires k.kind.ReplaceNewPkt? && k.qty == 0 && !k.side.TradeSide? && k.symbol in m.book && NoEmptyLevels(m.book)
    ensures ApplyMd(m, k) == State(m.book, m.orders[k.id := MdOrder(k.price, 0, k.symbol, k.side)])
  {
    var levels := m.book[k.symbol].On(k.side);
    assert SetLevel(levels, k.price, Get(levels, k.price)) == levels;
    assert m.book[k.symbol].With(k.side, levels) == m.book[k.symbol];
    assert m.book[k.symbol := m.book[k.symbol]] == m.book;
  }

  /** Of this symbol, the mirror has an entry for exactly the orders of the book, and at
      every price shows the quantity resting there, listing no other price. */
  ghost predicate MirrorShows(m: State, symbol: Symbol, b: Book) {
    && (forall id :: id in m.orders && m.orders[id].symbol == symbol ==> Present(b, id))
    && (forall id :: Present(b, id) ==>
          id in m.orders && Lookup(b, id).Some? && EntryShows(m.orders[id], Lookup(b, id).value))
    && (forall side: Side, price :: LevelShown(m, symbol, b, side, price))
  }

  predicate EntryShows(e: MdOrder, o: Order) {
    && e.price == o.price && e.qty == o.leaves && e.symbol == o.symbol
    && e.side == if o.side.Buy? then BidSide else AskSide
  }

  ghost predicate LevelShown(m: State, symbol: Symbol, b: Book, side: Side, price: Price) {
    var (wire, resting) := if side.Buy? then (BidSide, b.bids) else (AskSide, b.asks);
    && Shown(m, symbol, wire, price) == LevelQty(resting, price)
    && (symbol in m.book && price in m.book[symbol].On(wire) <==> LevelQty(resting, price) > 0)
  }

  lemma {:induction false} MirrorsShow(m: State, v: View, symbol: Symbol, b: Book)
    requires Mirrors(m, v) && Fits(v, symbol, b) && Valid(symbol, b) && Keyed(v)
    ensures MirrorShows(m, symbol, b)
  {
    hide Valid, Shows, Keyed, Present, Lookup, Consistent, LevelQty;
    forall id
      ensures Present(b, id) <==> id in v && v[id].symbol == symbol
      ensures Present(b, id) ==> Lookup(b, id) == Some(v[id])
    {
      FitsPresence(v, symbol, b, id);
    }
    forall side: Side, price
      ensures LevelShown(m, symbol, b, side, price)
    {
      MirrorShowsBook(m, v, symbol, b, side, price);
    }
  }
}
