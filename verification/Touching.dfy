/** A step that touches an order without a session leaves the gateway's record of it stale. */
module Touching {
  import opened Options
  import opened Orders
  import opened Matching
  import opened Books
  import opened Engine
  import opened Views
  import opened Gateway
  import opened Publishing
  import opened Leftovers
  import opened Agreement

  /** The callbacks say something new about the order. */
  predicate Changed(v: View, v': View, id: Id) {
    id in v && (id !in v' || v'[id] != v[id])
  }

  /** Callbacks never reach the record of an order without a session. */
  lemma {:induction false} UnboundFrozen(g: Gw, cs: seq<Callback>, id: Id)
    requires id !in g.sessions && id in g.active
    ensures var g' := NotifyAll(g, cs).gw; id !in g'.sessions && id in g'.active && g'.active[id] == g.active[id]
    decreases |cs|
  {
    if cs != [] {
      OneFrozen(g, cs[0], id);
      hide Notify;
      UnboundFrozen(Notify(g, cs[0]).gw, cs[1..], id);
    }
  }

  lemma {:induction false} OneFrozen(g: Gw, c: Callback, id: Id)
    requires id !in g.sessions && id in g.active
    ensures var g' := Notify(g, c).gw; id !in g'.sessions && id in g'.active && g'.active[id] == g.active[id]
  {
  }

  /** A sweep changes every maker it trades with. */
  lemma {:induction false} MakersChange(
    v: View, symbol: Symbol, own: seq<Order>, opp: seq<Order>, slack: set<Id>, taker: Order, i: nat)
    requires Shows(v, symbol, own, opp, slack) && Sweepable(symbol, own, opp) && Keyed(v)
    requires i < |opp| && i < |Sweep(taker, opp).trades|
    ensures Changed(v, Effects(v, Fills(Sweep(taker, opp).trades)), opp[i].id)
    decreases taker.leaves
  {
    hide Shows, Effect, Effects, Keyed, Sweepable, Sweep, Front, Fills, Elsewhere, Positive, TradeOf, Crosses, Holds;
    SweepableIsPositive(symbol, own, opp);
    SweepUnfolds(taker, opp);
    var qty := Min(taker.leaves, opp[0].leaves);
    var t, taker', opp' := TradeOf(taker, opp[0], qty), taker.(leaves := taker.leaves - qty), Front(opp, qty);
    var ts, v1 := Sweep(taker', opp').trades, Effect(v, OnFill(t));
    FrontListed(v, symbol, own, opp, slack);
    FillShows(v, symbol, own, opp, slack, taker, qty);
    FillsCons(t, ts);
    FirstCall(Gw(map[], map[], 0), v, Fills([t] + ts));
    if i == 0 {
      FrontChanges(v, symbol, own, opp, taker, qty);
      if qty == opp[0].leaves {
        SweepShows(v1, symbol, own, opp', slack, taker');
      } else {
        NoCalls(Gw(map[], map[], 0), v1);
        FillsCons(t, []);
      }
    } else {
      FrontShifts(v, symbol, own, opp, slack, qty, i);
      MakersChange(v1, symbol, own, opp', slack, taker', i - 1);
    }
  }

  lemma {:induction false} FrontChanges(
    v: View, symbol: Symbol, own: seq<Order>, opp: seq<Order>, taker: Order, qty: int)
    requires Sweepable(symbol, own, opp) && opp != [] && 0 < qty <= opp[0].leaves
    requires opp[0].id in v && v[opp[0].id] == opp[0]
    ensures Changed(v, Effect(v, OnFill(TradeOf(taker, opp[0], qty))), opp[0].id)
    ensures qty == opp[0].leaves ==>
              opp[0].id !in Effect(v, OnFill(TradeOf(taker, opp[0], qty))) && !Holds(Front(opp, qty), opp[0].id)
  {
    if qty == opp[0].leaves {
      assert forall i :: 0 <= i < |opp[1..]| ==> opp[1..][i] == opp[i + 1];
    }
  }

  lemma {:induction false} FrontShifts(
    v: View, symbol: Symbol, own: seq<Order>, opp: seq<Order>, slack: set<Id>, qty: int, i: nat)
    requires Shows(v, symbol, own, opp, slack) && Sweepable(symbol, own, opp) && 0 < i < |opp| && qty == opp[0].leaves
    ensures i - 1 < |Front(opp, qty)| && Front(opp, qty)[i - 1] == opp[i] && opp[i].id != opp[0].id && opp[i].id in v
  {
  }

  lemma {:induction false} EndingSpares(v: View, o: Order, leaves: int, id: Id)
    requires id != o.id
    ensures var v' := Effects(v, Ending(o, leaves)); (id in v' <==> id in v) && (id in v' ==> v'[id] == v[id])
  {
    EffectsOne(v, Ending(o, leaves));
  }

  /** If the step touches an order without a session, it changes one. */
  lemma {:induction false} TouchedChanges(
    g: Gw, v: View, symbol: Symbol, b: Book, item: WorkItem) returns (id: Id)
    requires Valid(symbol, b) && Fits(v, symbol, b) && Keyed(v) && Acceptable(symbol, b, v, item)
    requires !Untouched(g, b, item)
    ensures id !in g.sessions && Changed(v, Effects(v, Process(b, item).calls), id)
  {
    hide Valid, Shows, Keyed, Present, Lookup, Sweepable, Changed, Effects, Replace, Add;
    match item
    case NewOrder(o) => id := NewOrderTouches(g, v, symbol, b, o);
    case CancelItem(c) =>
      id := c.id;
      CancelChanges(v, symbol, b, c);
    case ReplaceItem(q) => id := ReplaceTouches(g, v, symbol, b, q);
  }

  lemma {:induction false} CancelChanges(v: View, symbol: Symbol, b: Book, c: CancelReq)
    requires Valid(symbol, b) && Fits(v, symbol, b) && Keyed(v) && Present(b, c.id)
    ensures Changed(v, Effects(v, Process(b, CancelItem(c)).calls), c.id)
  {
    hide Valid, Shows, Keyed, Present, Lookup;
    FitsPresence(v, symbol, b, c.id);
    EffectsOne(v, [OnCancel(c, true)]);
  }

  lemma {:induction false} NewOrderTouches(g: Gw, v: View, symbol: Symbol, b: Book, o: Order) returns (id: Id)
    requires Valid(symbol, b) && Fits(v, symbol, b) && Keyed(v) && o.id !in v
    requires !Killed(b, o) && !Met(g, b.On(o.side.Opposite()), |Add(b, o).trades|)
    ensures id !in g.sessions && Changed(v, Effects(v, Process(b, NewOrder(o)).calls), id)
  {
    hide Valid, Shows, Keyed, Sweepable, Effects, Killed, Ending, Sweep, Fills;
    var side, r := o.side.Opposite(), Add(b, o);
    var opp := b.On(side);
    var i :| 0 <= i < |opp| && i < |r.trades| && opp[i].id !in g.sessions;
    id := opp[i].id;
    BookIsSweepable(symbol, b, side);
    FacingSides(v, symbol, b, side, {});
    MakersChange(v, symbol, b.On(o.side), opp, {}, o.(leaves := o.qty), i);
    EffectsAppend(v, Fills(r.trades), Ending(o, r.leaves));
    EndingSpares(Effects(v, Fills(r.trades)), o, r.leaves, id);
  }

  lemma {:induction false} ReplaceTouches(g: Gw, v: View, symbol: Symbol, b: Book, q: ReplaceReq) returns (id: Id)
    requires Valid(symbol, b) && Fits(v, symbol, b) && Keyed(v) && Honoured(b, q)
    requires !Untouched(g, b, ReplaceItem(q))
    ensures id !in g.sessions && Changed(v, Effects(v, Process(b, ReplaceItem(q)).calls), id)
  {
    hide Valid, Shows, Keyed, Present, Lookup, Sweepable, Changed, Effects, Replace, Met;
    FitsPresence(v, symbol, b, q.id);
    LookupFinds(symbol, b, q.id);
    var o := Lookup(b, q.id).value;
    if Zeroes(b, q) {
      id := q.id;
      ZeroChanges(g, v, symbol, b, o, q);
    } else if q.id !in g.sessions && !Idle(o, q) {
      id := q.id;
      ReplacedChanges(v, symbol, b, o, q);
    } else {
      id := ReentryTouches(g, v, symbol, b, o, q);
    }
  }

  lemma {:induction false} ZeroChanges(g: Gw, v: View, symbol: Symbol, b: Book, o: Order, q: ReplaceReq)
    requires Valid(symbol, b) && Zeroes(b, q) && Lookup(b, q.id) == Some(o) && q.id in v
    requires !Untouched(g, b, ReplaceItem(q))
    ensures q.id !in g.sessions && Changed(v, Effects(v, Process(b, ReplaceItem(q)).calls), q.id)
  {
    hide Valid, Lookup, Present, Cancel, Process, Effects, Replace;
    ZeroIsCancel(symbol, b, q);
    EffectsOne(v, [OnReplace(q, true, 0)]);
  }

  lemma {:induction false} ReplacedChanges(v: View, symbol: Symbol, b: Book, o: Order, q: ReplaceReq)
    requires Valid(symbol, b) && Fits(v, symbol, b) && Keyed(v) && q.qty >= 1 && Present(b, q.id)
    requires Lookup(b, q.id) == Some(o) && q.id in v && v[q.id] == o && !Idle(o, q)
    ensures Changed(v, Effects(v, Process(b, ReplaceItem(q)).calls), q.id)
  {
    hide Valid, Shows, Keyed, Present, Lookup, Effects, Add, Cancel, Sweep;
    var r := Replace(b, q.id, q.price, q.qty);
    LookupFinds(symbol, b, q.id);
    if InPlace(o, q.price, q.qty) {
      assert Process(b, ReplaceItem(q)).calls == [OnReplace(q, true, q.qty)] by { assert Fills([]) == []; }
      EffectsOne(v, [OnReplace(q, true, q.qty)]);
    } else {
      ReentryView(v, symbol, b, o, q);
      var v1 := Effects(v, Fills(r.trades));
      EffectsAppend(v, Fills(r.trades), [OnReplace(q, true, r.leaves)]);
      EffectsOne(v1, [OnReplace(q, true, r.leaves)]);
      if q.price == o.price {
        OwnPriceMeetsNothing(symbol, b, o, q.qty);
        assert o.(price := q.price, qty := q.qty) == o.(qty := q.qty);
      }
    }
  }

  /** Before its callback a re-entered order is still described as it was. */
  lemma {:induction false} ReentryView(v: View, symbol: Symbol, b: Book, o: Order, q: ReplaceReq)
    requires Valid(symbol, b) && Fits(v, symbol, b) && Keyed(v) && q.qty >= 1
    requires q.id in v && v[q.id] == o && Lookup(b, q.id) == Some(o) && !InPlace(o, q.price, q.qty)
    ensures var r := Replace(b, q.id, q.price, q.qty);
            var v1 := Effects(v, Fills(r.trades));
            && r == Add(Cancel(b, q.id), o.(price := q.price, qty := q.qty))
            && r.leaves >= 0 && q.id in v1 && v1[q.id] == o
  {
    hide Shows, Valid, Keyed, Effects, Cancel, Add, Present, Lookup, InPlace;
    LookupFinds(symbol, b, q.id);
    ReentryFacts(symbol, b, v, o, q);
    CancelKeepsValid(symbol, b, q.id);
    RemoveShows(v, symbol, b, q.id);
    AddShows(v, symbol, Cancel(b, q.id), o.(price := q.price, qty := q.qty), {q.id});
  }

  lemma {:induction false} ReentryTouches(
    g: Gw, v: View, symbol: Symbol, b: Book, o: Order, q: ReplaceReq) returns (id: Id)
    requires Valid(symbol, b) && Fits(v, symbol, b) && Keyed(v) && q.qty >= 1 && Present(b, q.id)
    requires Lookup(b, q.id) == Some(o) && q.id in v && v[q.id] == o
    requires !Met(g, b.On(o.side.Opposite()), |Replace(b, q.id, q.price, q.qty).trades|)
    ensures id !in g.sessions && Changed(v, Effects(v, Process(b, ReplaceItem(q)).calls), id)
  {
    hide Valid, Shows, Keyed, Present, Lookup, Sweepable, Effects, Cancel, Sweep, Fills;
    var r, side := Replace(b, q.id, q.price, q.qty), o.side.Opposite();
    var opp := b.On(side);
    var i :| 0 <= i < |opp| && i < |r.trades| && opp[i].id !in g.sessions;
    id := opp[i].id;
    LookupFinds(symbol, b, q.id);
    var b1, o1 := Cancel(b, q.id), o.(price := q.price, qty := q.qty);
    ReentrySides(v, symbol, b, o, q.id);
    assert r == Add(b1, o1);
    MakersChange(v, symbol, b1.On(o.side), b1.On(side), {q.id}, o1.(leaves := o1.qty), i);
    var v1, call := Effects(v, Fills(r.trades)), OnReplace(q, r.leaves >= 0, r.leaves);
    EffectsAppend(v, Fills(r.trades), [call]);
    EffectsOne(v1, [call]);
    assert Holds(opp, id);
  }
}
