/** The set of resting orders as the callbacks describe it, and its agreement with the books. */
module Views {
  import opened Options
  import opened Orders
  import opened Matching
  import opened Books
  import opened Engine

  type View = map<Id, Order>

  /** What a callback says about the resting orders. */
  function Effect(v: View, c: Callback): View {
    match c
    case OnFill(Trade(m, _)) =>
      if m.id !in v then v
      else if m.leaves > 0 then v[m.id := v[m.id].(leaves := m.leaves)]
      else v - {m.id}
    case OnTifCancel(_) => v
    case OnRested(o, leaves) => v[o.id := o.(leaves := leaves)]
    case OnCancel(c, found) => if found then v - {c.id} else v
    case OnReplace(q, found, leaves) =>
      if !found || q.id !in v then v
      else if leaves > 0 then v[q.id := v[q.id].(price := q.price, qty := q.qty, leaves := leaves)]
      else v - {q.id}
  }

  function Effects(v: View, cs: seq<Callback>): View
    decreases |cs|
  {
    if cs == [] then v else Effects(Effect(v, cs[0]), cs[1..])
  }

  lemma {:induction false} EffectsAppend(v: View, a: seq<Callback>, b: seq<Callback>)
    ensures Effects(v, a + b) == Effects(Effects(v, a), b)
    decreases |a|
  {
    if a == [] {
      assert a + b == b;
    } else {
      assert (a + b)[1..] == a[1..] + b;
      EffectsAppend(Effect(v, a[0]), a[1..], b);
    }
  }

  /** v has every order of s. */
  ghost predicate Lists(v: View, s: seq<Order>) {
    forall i :: 0 <= i < |s| ==> s[i].id in v && v[s[i].id] == s[i]
  }

  /** Of this symbol, v has exactly the orders of the two sides, give or take the ids in slack. */
  ghost predicate Shows(v: View, symbol: Symbol, own: seq<Order>, opp: seq<Order>, slack: set<Id>) {
    && Lists(v, own) && Lists(v, opp)
    && forall id :: id in v && v[id].symbol == symbol ==> id in slack || v[id] in own || v[id] in opp
  }

  ghost predicate Fits(v: View, symbol: Symbol, b: Book) {
    Shows(v, symbol, b.bids, b.asks, {})
  }

  /** v' differs from v only at ids of this symbol. */
  ghost predicate Elsewhere(v: View, v': View, symbol: Symbol) {
    && (forall id :: id in v && v[id].symbol != symbol ==> id in v' && v'[id] == v[id])
    && (forall id :: id in v' && v'[id].symbol != symbol ==> id in v && v'[id] == v[id])
  }

  ghost predicate Keyed(v: View) {
    forall id :: id in v ==> v[id].id == id
  }

  lemma {:induction false} ElsewhereTrans(v: View, v1: View, v2: View, symbol: Symbol)
    requires Elsewhere(v, v1, symbol) && Elsewhere(v1, v2, symbol)
    ensures Elsewhere(v, v2, symbol)
  {
  }

  /** An order of this symbol may be written over, or put where there was none. */
  lemma {:induction false} ElsewhereWrite(v: View, symbol: Symbol, o: Order)
    requires o.symbol == symbol && (o.id in v ==> v[o.id].symbol == symbol) && Keyed(v)
    ensures Elsewhere(v, v[o.id := o], symbol) && Elsewhere(v, v - {o.id}, symbol)
    ensures Keyed(v[o.id := o]) && Keyed(v - {o.id})
  {
  }

  lemma {:induction false} ElsewhereSame(v: View, symbol: Symbol)
    ensures Elsewhere(v, v, symbol)
  {
  }

  // ---- Fills ----

  ghost predicate Sweepable(symbol: Symbol, own: seq<Order>, opp: seq<Order>) {
    && Distinct(opp) && Apart(own, opp) && Positive(opp)
    && forall i :: 0 <= i < |opp| ==> opp[i].symbol == symbol
  }

  lemma {:induction false} SweepableIsPositive(symbol: Symbol, own: seq<Order>, opp: seq<Order>)
    requires Sweepable(symbol, own, opp)
    ensures Positive(opp)
  {
  }

  lemma {:induction false} FillShows(
    v: View, symbol: Symbol, own: seq<Order>, opp: seq<Order>, slack: set<Id>, taker: Order, qty: int)
    requires Shows(v, symbol, own, opp, slack) && Sweepable(symbol, own, opp) && Keyed(v)
    requires opp != [] && 0 < qty <= opp[0].leaves
    ensures var v', opp' := Effect(v, OnFill(TradeOf(taker, opp[0], qty))), Front(opp, qty);
            && Shows(v', symbol, own, opp', slack) && Sweepable(symbol, own, opp')
            && Elsewhere(v, v', symbol) && Keyed(v') && v'.Keys <= v.Keys
            && (forall id :: id in v && id != opp[0].id ==> id in v' && v'[id] == v[id])
            && (forall id :: Holds(opp', id) ==> Holds(opp, id))
  {
    hide Shows, Sweepable, Elsewhere, Keyed, Holds, Front, Effect;
    var v' := Effect(v, OnFill(TradeOf(taker, opp[0], qty)));
    FillWrites(v, symbol, own, opp, slack, taker, qty);
    FrontIsSweepable(symbol, own, opp, qty);
    FrontShows(v, v', symbol, own, opp, slack, qty);
  }

  /** The fill shrinks or removes its maker's entry. */
  lemma {:induction false} FillWrites(
    v: View, symbol: Symbol, own: seq<Order>, opp: seq<Order>, slack: set<Id>, taker: Order, qty: int)
    requires Shows(v, symbol, own, opp, slack) && Sweepable(symbol, own, opp) && Keyed(v)
    requires opp != [] && 0 < qty <= opp[0].leaves
    ensures var x, v' := opp[0], Effect(v, OnFill(TradeOf(taker, opp[0], qty)));
            && x.id in v && v[x.id] == x
            && v' == (if qty == x.leaves then v - {x.id} else v[x.id := x.(leaves := x.leaves - qty)])
            && Elsewhere(v, v', symbol) && Keyed(v')
  {
    hide Elsewhere;
    var x := opp[0];
    ElsewhereWrite(v, symbol, x.(leaves := x.leaves - qty));
  }

  lemma {:induction false} FrontIsSweepable(symbol: Symbol, own: seq<Order>, opp: seq<Order>, qty: int)
    requires Sweepable(symbol, own, opp) && opp != [] && 0 < qty <= opp[0].leaves
    ensures Sweepable(symbol, own, Front(opp, qty))
    ensures forall id :: Holds(Front(opp, qty), id) ==> Holds(opp, id)
  {
    var s, d := Front(opp, qty), |opp| - |Front(opp, qty)|;
    assert forall i :: 0 <= i < |s| ==> s[i].id == opp[i + d].id && s[i].symbol == symbol && s[i].leaves > 0;
  }

  lemma {:induction false} FrontShows(
    v: View, v': View, symbol: Symbol, own: seq<Order>, opp: seq<Order>, slack: set<Id>, qty: int)
    requires Shows(v, symbol, own, opp, slack) && Sweepable(symbol, own, opp) && Keyed(v)
    requires opp != [] && 0 < qty <= opp[0].leaves
    requires var x := opp[0];
             v' == (if qty == x.leaves then v - {x.id} else v[x.id := x.(leaves := x.leaves - qty)])
    ensures Shows(v', symbol, own, Front(opp, qty), slack)
  {
    var x, s := opp[0], Front(opp, qty);
    assert forall i :: 0 < i < |opp| ==> opp[i].id != x.id;
    assert forall i :: 0 <= i < |own| ==> own[i].id != x.id;
    hide Sweepable;
    if qty == x.leaves {
      assert forall i :: 0 <= i < |s| ==> s[i] == opp[i + 1];
      forall id | id in v' && v'[id].symbol == symbol && v[id] in opp
        ensures v'[id] in s
      {
        var i :| 0 <= i < |opp| && opp[i] == v[id];
        assert s[i - 1] == v[id];
      }
    } else {
      assert s[0] == v'[x.id];
      forall id | id in v' && v'[id].symbol == symbol && id != x.id && v[id] in opp
        ensures v'[id] in s
      {
        var i :| 0 <= i < |opp| && opp[i] == v[id];
        assert s[i] == v[id];
      }
    }
  }

  lemma {:induction false} SweepShows(
    v: View, symbol: Symbol, own: seq<Order>, opp: seq<Order>, slack: set<Id>, taker: Order)
    requires Shows(v, symbol, own, opp, slack) && Sweepable(symbol, own, opp) && Keyed(v)
    ensures var r := Sweep(taker, opp);
            var v' := Effects(v, Fills(r.trades));
            && Shows(v', symbol, own, r.rest, slack)
            && Elsewhere(v, v', symbol) && Keyed(v') && v'.Keys <= v.Keys
            && (forall id :: id in v && !Holds(opp, id) ==> id in v' && v'[id] == v[id])
    decreases taker.leaves
  {
    hide Shows, Effect, Elsewhere, Keyed, Sweep, Fills, Front, Sweepable, Positive, TradeOf, Crosses;
    SweepableIsPositive(symbol, own, opp);
    SweepUnfolds(taker, opp);
    if Stops(taker, opp) {
      ElsewhereSame(v, symbol);
      FillsCons(TradeOf(taker, taker, 0), []);
    } else {
      var qty := Min(taker.leaves, opp[0].leaves);
      var t, taker', opp' := TradeOf(taker, opp[0], qty), taker.(leaves := taker.leaves - qty), Front(opp, qty);
      FillShows(v, symbol, own, opp, slack, taker, qty);
      var v1 := Effect(v, OnFill(t));
      SweepShows(v1, symbol, own, opp', slack, taker');
      FillsCons(t, Sweep(taker', opp').trades);
      ElsewhereTrans(v, v1, Effects(v, Fills(Sweep(taker, opp).trades)), symbol);
      assert Holds(opp, opp[0].id);
    }
  }

  // ---- Whole steps ----

  /** A replace asks for at least one unit, or finds no order, or takes it out of the book
      by asking for nothing at another price. */
  predicate Honoured(b: Book, q: ReplaceReq) {
    match Lookup(b, q.id)
    case None => true
    case Some(_) => q.qty >= 1 || Zeroes(b, q)
  }

  predicate Zeroes(b: Book, q: ReplaceReq) {
    q.qty == 0 && Lookup(b, q.id).Some? && Lookup(b, q.id).value.price != q.price
  }

  predicate Acceptable(symbol: Symbol, b: Book, v: View, item: WorkItem) {
    && SymbolOf(item) == symbol
    && match item {
         case NewOrder(o) => o.qty >= 1 && o.id !in v
         case CancelItem(_) => true
         case ReplaceItem(q) => Honoured(b, q)
       }
  }

  lemma {:induction false} FitsPresence(v: View, symbol: Symbol, b: Book, id: Id)
    requires Fits(v, symbol, b) && Valid(symbol, b) && Keyed(v)
    ensures Present(b, id) <==> id in v && v[id].symbol == symbol
    ensures Present(b, id) ==> Lookup(b, id) == Some(v[id])
  {
    LookupFinds(symbol, b, id);
    if id in v && v[id].symbol == symbol {
      if v[id] in b.bids {
        var i :| 0 <= i < |b.bids| && b.bids[i] == v[id];
        assert Holds(b.bids, id);
      } else {
        var i :| 0 <= i < |b.asks| && b.asks[i] == v[id];
        assert Holds(b.asks, id);
      }
    }
  }

  lemma {:induction false} BookIsSweepable(symbol: Symbol, b: Book, side: Side)
    requires Valid(symbol, b)
    ensures Sweepable(symbol, b.On(side.Opposite()), b.On(side))
  {
    assert forall i :: 0 <= i < |b.On(side)| ==> RestingOrder(symbol, side, b.On(side)[i]);
  }

  lemma {:induction false} FacingSides(v: View, symbol: Symbol, b: Book, side: Side, slack: set<Id>)
    ensures Shows(v, symbol, b.bids, b.asks, slack) <==> Shows(v, symbol, b.On(side.Opposite()), b.On(side), slack)
  {
  }

  lemma {:induction false} InsertShows(
    v: View, symbol: Symbol, own: seq<Order>, opp: seq<Order>, slack: set<Id>, o: Order)
    requires Shows(v, symbol, own, opp, slack) && Keyed(v)
    requires o.symbol == symbol && !Holds(own, o.id) && !Holds(opp, o.id)
    requires slack <= {o.id}
    ensures Shows(v[o.id := o], symbol, Insert(own, o), opp, {})
    ensures Keyed(v[o.id := o])
  {
    var k, t, v' := Place(own, o), Insert(own, o), v[o.id := o];
    hide Place;
    forall i | 0 <= i < |t|
      ensures t[i] == if i < k then own[i] else if i == k then o else own[i - 1]
    {
    }
    assert t[k] == o;
    forall id | id in v' && v'[id].symbol == symbol
      ensures v'[id] in t || v'[id] in opp
    {
      if id != o.id && v[id] in own {
        var i :| 0 <= i < |own| && own[i] == v[id];
        assert t[if i < k then i else i + 1] == v[id];
      }
    }
  }

  /** After the fills of an add: what remains is to insert or forget the aggressor. */
  lemma {:induction false} AddShows(v: View, symbol: Symbol, b: Book, o: Order, slack: set<Id>)
    requires Valid(symbol, b) && Shows(v, symbol, b.bids, b.asks, slack) && Keyed(v)
    requires o.symbol == symbol && o.qty >= 1 && !Present(b, o.id) && slack <= {o.id}
    ensures var r := Add(b, o);
            var v' := Effects(v, Fills(r.trades));
            && Elsewhere(v, v', symbol) && Keyed(v') && v'.Keys <= v.Keys
            && (o.id in v ==> o.id in v' && v'[o.id] == v[o.id])
            && if r.leaves > 0 && o.typ.Limit? && !o.tif.Ioc?
               then Fits(v'[o.id := o.(leaves := r.leaves)], symbol, r.book)
               else Shows(v', symbol, r.book.bids, r.book.asks, slack)
  {
    var side := o.side;
    var own, opp, t := b.On(side), b.On(side.Opposite()), o.(leaves := o.qty);
    BookIsSweepable(symbol, b, side.Opposite());
    assert Shows(v, symbol, own, opp, slack);
    SweepShows(v, symbol, own, opp, slack, t);
    SideIsOrderly(symbol, b, side.Opposite());
    SweepRest(t, opp);
    var r := Sweep(t, opp);
    SweptBookValid(symbol, b, side.Opposite(), r.rest);
    if Rests(r.taker) {
      InsertShows(Effects(v, Fills(r.trades)), symbol, own, r.rest, slack, r.taker);
    }
  }

  lemma {:induction false} RemoveShows(v: View, symbol: Symbol, b: Book, id: Id)
    requires Valid(symbol, b) && Fits(v, symbol, b) && Present(b, id) && Keyed(v)
    ensures Shows(v, symbol, Cancel(b, id).bids, Cancel(b, id).asks, {id})
    ensures Fits(v - {id}, symbol, Cancel(b, id))
  {
    hide Remove, Valid, Distinct;
    SideIsOrderly(symbol, b, Buy);
    SideIsOrderly(symbol, b, Sell);
    SideRemoved(b.bids, id);
    SideRemoved(b.asks, id);
    var b' := Cancel(b, id);
    assert Lists(v, b'.bids) && Lists(v, b'.asks);
    assert Lists(v - {id}, b'.bids) && Lists(v - {id}, b'.asks);
    forall x | x in v && v[x].symbol == symbol && x != id
      ensures v[x] in b'.bids || v[x] in b'.asks
    {
      var s := if v[x] in b.bids then b.bids else b.asks;
      var i :| 0 <= i < |s| && s[i] == v[x];
    }
  }

  lemma {:induction false} SideRemoved(s: seq<Order>, id: Id)
    requires Distinct(s)
    ensures forall i :: 0 <= i < |Remove(s, id)| ==> Remove(s, id)[i] in s && Remove(s, id)[i].id != id
    ensures forall i :: 0 <= i < |s| && s[i].id != id ==> s[i] in Remove(s, id)
  {
    var k, t := Find(s, id), Remove(s, id);
    hide Find;
    if k < |s| {
      forall i | 0 <= i < |t|
        ensures t[i] == if i < k then s[i] else s[i + 1]
      {
      }
      forall i | 0 <= i < |s| && s[i].id != id
        ensures s[i] in t
      {
        assert t[if i < k then i else i - 1] == s[i];
      }
    }
  }

  lemma {:induction false} ResizeShows(v: View, symbol: Symbol, b: Book, id: Id, qty: int)
    requires Valid(symbol, b) && Fits(v, symbol, b) && Present(b, id) && Keyed(v)
    ensures id in v
    ensures Fits(v[id := v[id].(qty := qty, leaves := qty)], symbol,
              Book(Resize(b.bids, id, qty), Resize(b.asks, id, qty)))
  {
    hide Valid, Lookup, Shows, Keyed, Present, Distinct, Resize;
    FitsPresence(v, symbol, b, id);
    LookupFinds(symbol, b, id);
    var side := v[id].side;
    SideIsOrderly(symbol, b, side);
    AbsentResize(b.On(side.Opposite()), id, qty);
    FacingSides(v, symbol, b, side, {});
    SideResized(v, symbol, b.On(side.Opposite()), b.On(side), id, qty);
    var b' := Book(Resize(b.bids, id, qty), Resize(b.asks, id, qty));
    FacingSides(v[id := v[id].(qty := qty, leaves := qty)], symbol, b', side, {});
  }

  lemma {:induction false} SideResized(
    v: View, symbol: Symbol, own: seq<Order>, opp: seq<Order>, id: Id, qty: int)
    requires Shows(v, symbol, own, opp, {}) && Keyed(v) && Distinct(opp) && !Holds(own, id)
    requires Find(opp, id) < |opp| && id in v && v[id] == opp[Find(opp, id)]
    ensures Shows(v[id := v[id].(qty := qty, leaves := qty)], symbol, own, Resize(opp, id, qty), {})
  {
    var k := Find(opp, id);
    var o' := opp[k].(qty := qty, leaves := qty);
    var v', opp' := v[id := o'], opp[k := o'];
    assert opp' == Resize(opp, id, qty);
    hide Find, Resize;
    assert forall i :: 0 <= i < |opp| && i != k ==> opp[i].id != id && opp'[i] == opp[i];
    assert opp'[k] == o';
    forall x | x in v' && v'[x].symbol == symbol && x != id
      ensures v'[x] in own || v'[x] in opp'
    {
      if v[x] in opp {
        var i :| 0 <= i < |opp| && opp[i] == v[x];
        assert opp'[i] == v[x];
      }
    }
  }

  lemma {:induction false} DropSlack(v: View, symbol: Symbol, b: Book, id: Id)
    requires Shows(v, symbol, b.bids, b.asks, {id}) && !Present(b, id)
    ensures Fits(v - {id}, symbol, b)
  {
  }

  /** Folding a step's callbacks over a view that fits the book gives a view that fits the
      book after the step, and touches nothing of any other symbol. */
  lemma {:induction false} ProcessFits(v: View, symbol: Symbol, b: Book, item: WorkItem)
    requires Valid(symbol, b) && Fits(v, symbol, b) && Keyed(v) && Acceptable(symbol, b, v, item)
    ensures var s := Process(b, item); var v' := Effects(v, s.calls);
            && Valid(symbol, s.book) && Fits(v', symbol, s.book) && Keyed(v') && Elsewhere(v, v', symbol)
            && (forall id :: id in v' ==> id in v || (item.NewOrder? && id == item.order.id))
  {
    match item
    case NewOrder(o) => NewOrderFits(v, symbol, b, o);
    case CancelItem(c) => CancelFits(v, symbol, b, c);
    case ReplaceItem(q) => ReplaceFits(v, symbol, b, q);
  }

  lemma {:induction false} NewOrderFits(v: View, symbol: Symbol, b: Book, o: Order)
    requires Valid(symbol, b) && Fits(v, symbol, b) && Keyed(v) && Acceptable(symbol, b, v, NewOrder(o))
    ensures var s := Process(b, NewOrder(o)); var v' := Effects(v, s.calls);
            && Valid(symbol, s.book) && Fits(v', symbol, s.book) && Keyed(v') && Elsewhere(v, v', symbol)
            && (forall id :: id in v' ==> id in v || id == o.id)
  {
    hide Valid, Shows, Keyed, Present, Lookup, Elsewhere, Effects, Add, Depth, Available, Fills, CrossingTotal,
         Clashes;
    FitsPresence(v, symbol, b, o.id);
    AddKeepsValidIff(symbol, b, o);
    if Killed(b, o) {
      EffectsOne(v, [OnTifCancel(o.(leaves := o.qty))]);
      ElsewhereSame(v, symbol);
    } else {
      AddShows(v, symbol, b, o, {});
      AddFills(symbol, b, o);
      if o.typ.Limit? {
        AvailableIsDepth(o, b.On(o.side.Opposite()));
      }
      var r := Add(b, o);
      EffectsAppend(v, Fills(r.trades), Ending(o, r.leaves));
      var v1 := Effects(v, Fills(r.trades));
      EffectsOne(v1, Ending(o, r.leaves));
      if r.leaves > 0 && o.typ.Limit? && o.tif.Gtc? {
        ElsewhereWrite(v1, symbol, o.(leaves := r.leaves));
        ElsewhereTrans(v, v1, v1[o.id := o.(leaves := r.leaves)], symbol);
      }
    }
  }

  lemma {:induction false} EffectsOne(v: View, cs: seq<Callback>)
    ensures cs == [] ==> Effects(v, cs) == v
    ensures |cs| == 1 ==> Effects(v, cs) == Effect(v, cs[0])
  {
    if |cs| == 1 {
      assert cs[1..] == [];
    }
  }

  lemma {:induction false} CancelFits(v: View, symbol: Symbol, b: Book, c: CancelReq)
    requires Valid(symbol, b) && Fits(v, symbol, b) && Keyed(v)
    ensures var s := Process(b, CancelItem(c)); var v' := Effects(v, s.calls);
            && Valid(symbol, s.book) && Fits(v', symbol, s.book) && Keyed(v') && Elsewhere(v, v', symbol)
            && v'.Keys <= v.Keys
  {
    hide Valid, Shows, Keyed, Present, Lookup, Cancel, Elsewhere, Effects;
    FitsPresence(v, symbol, b, c.id);
    CancelKeepsValid(symbol, b, c.id);
    var found := Present(b, c.id);
    EffectsOne(v, [OnCancel(c, found)]);
    ElsewhereSame(v, symbol);
    if found {
      RemoveShows(v, symbol, b, c.id);
      LookupFinds(symbol, b, c.id);
      ElsewhereWrite(v, symbol, v[c.id]);
    } else {
      AbsentCancel(b, c.id);
    }
  }

  lemma {:induction false} ReplaceFits(v: View, symbol: Symbol, b: Book, q: ReplaceReq)
    requires Valid(symbol, b) && Fits(v, symbol, b) && Keyed(v) && Honoured(b, q)
    ensures var s := Process(b, ReplaceItem(q)); var v' := Effects(v, s.calls);
            && Valid(symbol, s.book) && Fits(v', symbol, s.book) && Keyed(v') && Elsewhere(v, v', symbol)
            && v'.Keys <= v.Keys
  {
    FitsPresence(v, symbol, b, q.id);
    LookupFinds(symbol, b, q.id);
    ReplaceKeepsValidIff(symbol, b, q.id, q.price, q.qty);
    hide Shows, Valid, Elsewhere, Keyed, Present;
    var r := Replace(b, q.id, q.price, q.qty);
    var call := OnReplace(q, r.leaves >= 0, r.leaves);
    EffectsAppend(v, Fills(r.trades), [call]);
    EffectsOne(Effects(v, Fills(r.trades)), [call]);
    match Lookup(b, q.id)
    case None =>
      ElsewhereSame(v, symbol);
    case Some(o) =>
      if InPlace(o, q.price, q.qty) {
        ResizeShows(v, symbol, b, q.id, q.qty);
        ElsewhereWrite(v, symbol, o.(qty := q.qty, leaves := q.qty));
      } else if q.qty == 0 {
        assert r == Outcome(Cancel(b, q.id), 0, []) && Fills([]) == [];
        RemoveShows(v, symbol, b, q.id);
        ElsewhereWrite(v, symbol, o);
      } else {
        hide Effects, Add, Cancel;
        ReentryFits(v, symbol, b, o, q);
      }
  }

  /** A replace leaves a valid book that its callbacks describe if and only if it asks for
      at least one unit, or finds no order, or asks for nothing at another price. */
  lemma {:induction false} ReplaceFitsIff(v: View, symbol: Symbol, b: Book, q: ReplaceReq)
    requires Valid(symbol, b) && Fits(v, symbol, b) && Keyed(v)
    ensures var s := Process(b, ReplaceItem(q));
            Valid(symbol, s.book) && Fits(Effects(v, s.calls), symbol, s.book) <==> Honoured(b, q)
  {
    hide Shows, Valid, Keyed, Present;
    if Honoured(b, q) {
      ReplaceFits(v, symbol, b, q);
    } else {
      FitsPresence(v, symbol, b, q.id);
      LookupFinds(symbol, b, q.id);
      ReplaceKeepsValidIff(symbol, b, q.id, q.price, q.qty);
      var o, call := Lookup(b, q.id).value, OnReplace(q, false, q.qty);
      if !InPlace(o, q.price, q.qty) {
        var b' := Cancel(b, q.id);
        assert Process(b, ReplaceItem(q)) == Step(b', [call]) by { assert Fills([]) == []; }
        EffectsOne(v, [call]);
        CancelKeepsValid(symbol, b, q.id);
        if Fits(v, symbol, b') {
          FitsPresence(v, symbol, b', q.id);
        }
      }
    }
  }

  lemma {:induction false} ReentryFits(v: View, symbol: Symbol, b: Book, o: Order, q: ReplaceReq)
    requires Valid(symbol, b) && Fits(v, symbol, b) && Keyed(v) && q.qty >= 1
    requires Lookup(b, q.id) == Some(o) && q.id in v && v[q.id] == o
    ensures var r := Add(Cancel(b, q.id), o.(price := q.price, qty := q.qty));
            var v' := Effect(Effects(v, Fills(r.trades)), OnReplace(q, true, r.leaves));
            && r.leaves >= 0
            && Fits(v', symbol, r.book) && Keyed(v') && Elsewhere(v, v', symbol)
            && v'.Keys <= v.Keys
  {
    hide Valid, Add, Cancel, Shows, Elsewhere, Keyed, Present, Depth, CrossingTotal, Lookup, Effects;
    LookupFinds(symbol, b, q.id);
    var b1, o1 := Cancel(b, q.id), o.(price := q.price, qty := q.qty);
    var r := Add(b1, o1);
    var v1 := Effects(v, Fills(r.trades));
    CancelKeepsValid(symbol, b, q.id);
    RemoveShows(v, symbol, b, q.id);
    AddShows(v, symbol, b1, o1, {q.id});
    AddFills(symbol, b1, o1);
    DepthBounds(o1, b1.On(o1.side.Opposite())) by { SideIsOrderly(symbol, b1, o1.side.Opposite()); }
    AddPresence(symbol, b1, o1);
    ElsewhereWrite(v1, symbol, o1.(leaves := r.leaves));
    if r.leaves > 0 {
      ElsewhereTrans(v, v1, v1[o.id := o1.(leaves := r.leaves)], symbol);
    } else {
      DropSlack(v1, symbol, r.book, q.id);
      ElsewhereTrans(v, v1, v1 - {o.id}, symbol);
    }
  }
}
