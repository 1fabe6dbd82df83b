/** What reaches the table and the mirror does not depend on the gateway's records being exact,
    only on who they name. */
module Announcing {
  import opened Options
  import opened Orders
  import opened Matching
  import opened Books
  import opened Engine
  import opened Views
  import opened Gateway
  import opened Publishing
  import opened Leftovers

  /** The record e names the order o, and, if asked, its price. */
  predicate Stands(e: Order, o: Order, priced: bool) {
    e == o.(price := e.price, qty := e.qty, leaves := e.leaves) && (priced ==> e.price == o.price)
  }

  /** The gateway has a record of every resting and every kept order. */
  ghost predicate Follows(g: Gw, v: View, kept: View, priced: bool) {
    && (forall id :: id in v ==> id in g.active && Stands(g.active[id], v[id], priced))
    && (forall id :: id in kept ==> id in g.active && Stands(g.active[id], kept[id], priced))
  }

  /** The same, leaving the order x, which is being matched, out of account. */
  ghost predicate FollowsOff(g: Gw, v: View, kept: View, x: Id, priced: bool) {
    && x !in kept && v.Keys !! kept.Keys
    && (forall id :: id in v && id != x ==> id in g.active && Stands(g.active[id], v[id], priced))
    && (forall id :: id in kept ==> id in g.active && Stands(g.active[id], kept[id], priced))
  }

  /** How the gateway's record of x has changed while x traded, left saying whether some of it is left. */
  ghost predicate Tracks(g: Gw, g1: Gw, x: Id, left: bool) {
    && (x in g1.sessions ==> x in g.sessions)
    && (x in g.sessions ==> (x in g1.sessions <==> left))
    && (x in g.active && (left || x !in g.sessions) ==> x in g1.active)
    && (x in g.active && x in g1.active ==> g1.active[x] == g.active[x].(leaves := g1.active[x].leaves))
  }

  // ---- Fills ----

  lemma {:induction false} FillFollows(g: Gw, v: View, kept: View, t: Trade, priced: bool)
    requires FollowsOff(g, v, kept, t.taker.id, priced) && Keyed(v)
    requires t.maker.id in v && t.maker.id != t.taker.id && t.maker.leaves >= 0 && t.taker.leaves >= 0
    ensures var g', v' := Notify(g, OnFill(t)).gw, Effect(v, OnFill(t));
            FollowsOff(g', v', kept, t.taker.id, priced) && Tracks(g, g', t.taker.id, t.taker.leaves > 0)
  {
    hide SendFill, FollowsOff, Effect, Keyed;
    var g1 := SendFill(g, t.maker);
    MakerFollows(g, v, kept, t, priced);
    TakerFollows(g1, Effect(v, OnFill(t)), kept, t.taker, priced);
    OtherRecord(g, t.maker, t.taker.id);
  }

  lemma {:induction false} MakerFollows(g: Gw, v: View, kept: View, t: Trade, priced: bool)
    requires FollowsOff(g, v, kept, t.taker.id, priced) && t.maker.id in v && t.maker.id != t.taker.id
    requires t.maker.leaves >= 0
    ensures FollowsOff(SendFill(g, t.maker), Effect(v, OnFill(t)), kept, t.taker.id, priced)
  {
    hide SendFill, Effect;
    FillOutcome(g, v, t);
  }

  /** A fill changes its maker's record and entry at most, and of those the leaves, or removes them. */
  lemma {:induction false} FillOutcome(g: Gw, v: View, t: Trade)
    requires t.maker.leaves >= 0
    ensures var m, g1, v' := t.maker, SendFill(g, t.maker), Effect(v, OnFill(t));
            && (forall id :: id != m.id ==> (id in g1.active <==> id in g.active))
            && (forall id :: id != m.id && id in g.active ==> g1.active[id] == g.active[id])
            && (forall id :: id in v' ==> id in v && v'[id] == v[id].(leaves := v'[id].leaves))
            && (m.leaves == 0 ==> m.id !in v')
            && (m.leaves > 0 && m.id in g.active ==>
                  m.id in g1.active && g1.active[m.id] == g.active[m.id].(leaves := g1.active[m.id].leaves))
  {
  }

  lemma {:induction false} OtherRecord(g: Gw, f: Fill, x: Id)
    requires f.id != x
    ensures var g1 := SendFill(g, f);
            && (x in g1.sessions <==> x in g.sessions) && (x in g1.active <==> x in g.active)
            && (x in g.active ==> g1.active[x] == g.active[x])
  {
  }

  lemma {:induction false} TakerFollows(g: Gw, v: View, kept: View, f: Fill, priced: bool)
    requires FollowsOff(g, v, kept, f.id, priced) && f.leaves >= 0
    ensures FollowsOff(SendFill(g, f), v, kept, f.id, priced) && Tracks(g, SendFill(g, f), f.id, f.leaves > 0)
  {
  }

  lemma {:induction false} SweepFollows(
    g: Gw, v: View, kept: View, symbol: Symbol, own: seq<Order>, opp: seq<Order>, slack: set<Id>,
    taker: Order, priced: bool)
    requires Shows(v, symbol, own, opp, slack) && Sweepable(symbol, own, opp) && Keyed(v)
    requires taker.leaves > 0 && !Holds(opp, taker.id) && FollowsOff(g, v, kept, taker.id, priced)
    ensures var r := Sweep(taker, opp);
            var g', v' := NotifyAll(g, Fills(r.trades)).gw, Effects(v, Fills(r.trades));
            FollowsOff(g', v', kept, taker.id, priced) && Tracks(g, g', taker.id, r.taker.leaves > 0)
    decreases taker.leaves
  {
    hide Shows, Notify, Effect, FollowsOff, Keyed, Sweepable, Sweep, Front, Fills, Elsewhere, Positive, TradeOf,
         Effects, NotifyAll, Crosses, Tracks, Holds;
    SweepableIsPositive(symbol, own, opp);
    SweepUnfolds(taker, opp);
    if Stops(taker, opp) {
      FillsCons(TradeOf(taker, taker, 0), []);
      NoCalls(g, v);
      TracksItself(g, taker.id);
    } else {
      var qty := Min(taker.leaves, opp[0].leaves);
      var t, taker', opp' := TradeOf(taker, opp[0], qty), taker.(leaves := taker.leaves - qty), Front(opp, qty);
      var ts := Sweep(taker', opp').trades;
      FrontListed(v, symbol, own, opp, slack);
      FillShows(v, symbol, own, opp, slack, taker, qty);
      FrontIsOther(opp, taker, qty);
      FillFollows(g, v, kept, t, priced);
      var g1, v1 := Notify(g, OnFill(t)).gw, Effect(v, OnFill(t));
      FillsCons(t, ts);
      FirstCall(g, v, Fills([t] + ts));
      SweepUnfolds(taker', opp');
      if taker'.leaves > 0 {
        SweepFollows(g1, v1, kept, symbol, own, opp', slack, taker', priced);
        TracksOn(g, g1, NotifyAll(g1, Fills(ts)).gw, taker.id, Sweep(taker', opp').taker.leaves > 0);
      } else {
        FillsCons(t, []);
        NoCalls(g1, v1);
      }
    }
  }

  lemma {:induction false} FrontIsOther(opp: seq<Order>, taker: Order, qty: int)
    requires opp != [] && !Holds(opp, taker.id) && 0 < qty <= Min(taker.leaves, opp[0].leaves)
    ensures opp[0].id != taker.id
    ensures var t := TradeOf(taker, opp[0], qty);
            && t.maker.id == opp[0].id && t.taker.id == taker.id
            && t.maker.leaves >= 0 && t.taker.leaves == taker.leaves - qty
  {
  }

  lemma {:induction false} TracksItself(g: Gw, x: Id)
    ensures Tracks(g, g, x, true)
  {
  }

  lemma {:induction false} TracksOn(g: Gw, g1: Gw, g2: Gw, x: Id, left: bool)
    requires Tracks(g, g1, x, true) && Tracks(g1, g2, x, left)
    ensures Tracks(g, g2, x, left)
  {
  }

  /** The fills of an order that enters the book. */
  lemma {:induction false} EntryFollows(
    g: Gw, v: View, kept: View, symbol: Symbol, b: Book, o: Order, slack: set<Id>, priced: bool)
    requires FollowsOff(g, v, kept, o.id, priced) && o.qty >= 1 && !Present(b, o.id)
    requires Shows(v, symbol, b.On(o.side), b.On(o.side.Opposite()), slack) && Keyed(v)
    requires Sweepable(symbol, b.On(o.side), b.On(o.side.Opposite()))
    ensures var r := Add(b, o); var fills := Fills(r.trades);
            var g1, v1 := NotifyAll(g, fills).gw, Effects(v, fills);
            && FollowsOff(g1, v1, kept, o.id, priced) && Tracks(g, g1, o.id, r.leaves > 0)
            && (o.id in v ==> o.id in v1 && v1[o.id] == v[o.id])
            && v1.Keys <= v.Keys
  {
    hide Shows, FollowsOff, Keyed, Effects, NotifyAll, Sweepable, Elsewhere, Tracks;
    var t, own, opp := o.(leaves := o.qty), b.On(o.side), b.On(o.side.Opposite());
    SweepFollows(g, v, kept, symbol, own, opp, slack, t, priced);
    SweepShows(v, symbol, own, opp, slack, t);
  }

  // ---- Whole steps: who the records name ----

  lemma {:induction false} FollowsApart(g: Gw, v: View, kept: View, x: Id, priced: bool)
    requires Follows(g, v, kept, priced) && v.Keys !! kept.Keys
    ensures FollowsOff(g, v, kept - {x}, x, priced)
    ensures x in v ==> x in g.active && Stands(g.active[x], v[x], priced) && kept - {x} == kept
    ensures x in kept ==> x in g.active && Stands(g.active[x], kept[x], priced)
  {
    assert x !in kept ==> kept - {x} == kept;
  }

  lemma {:induction false} NewOrderFollows(
    g: Gw, v: View, kept: View, symbol: Symbol, b: Book, o: Order, priced: bool)
    requires Valid(symbol, b) && Fits(v, symbol, b) && Keyed(v) && Acceptable(symbol, b, v, NewOrder(o))
    requires Follows(g, v, kept, priced) && v.Keys !! kept.Keys && o.id in kept && kept[o.id] == o && o.leaves == o.qty
    ensures var cs := Process(b, NewOrder(o)).calls;
            Follows(NotifyAll(g, cs).gw, Effects(v, cs), KeptAfter(b, NewOrder(o), kept), priced)
  {
    hide Valid, Shows, Follows, FollowsOff, Keyed, Present, Depth, Add, Lookup, Sweepable, Effects, NotifyAll,
         Available;
    var x, r, side := o.id, Add(b, o), o.side.Opposite();
    FitsPresence(v, symbol, b, x);
    FollowsApart(g, v, kept, x, priced);
    if Killed(b, o) {
      var c := OnTifCancel(o.(leaves := o.qty));
      EffectsOne(v, [c]);
      NotifyOne(g, c);
      EndFollows(g, v, kept, o, o.leaves, [c], priced);
    } else {
      var fills, end := Fills(r.trades), Ending(o, r.leaves);
      BookIsSweepable(symbol, b, side);
      FacingSides(v, symbol, b, side, {});
      EntryFollows(g, v, kept - {x}, symbol, b, o, {}, priced);
      EndingDropsIff(symbol, b, o);
      var g1, v1 := NotifyAll(g, fills).gw, Effects(v, fills);
      hide Killed, Drops;
      EndFollows(g1, v1, kept, o, r.leaves, end, priced);
      NotifyAppend(g, fills, end);
      EffectsAppend(v, fills, end);
    }
  }

  lemma {:induction false} EndFollows(
    g: Gw, v: View, kept: View, o: Order, leaves: int, end: seq<Callback>, priced: bool)
    requires o.id in kept && kept[o.id] == o && o.id !in v
    requires FollowsOff(g, v, kept - {o.id}, o.id, priced)
    requires leaves > 0 && end != [OnTifCancel(o.(leaves := leaves))] ==>
               o.id in g.active && Stands(g.active[o.id], o, priced)
    requires end == [OnTifCancel(o.(leaves := leaves))] || (end == Ending(o, leaves) && leaves >= 0)
    ensures var kept' := if leaves > 0 && end == [] then kept[o.id := o.(leaves := leaves)] else kept - {o.id};
            Follows(NotifyAll(g, end).gw, Effects(v, end), kept', priced)
  {
    hide Follows, FollowsOff, NotifyAll, Effects, Notify, Stands;
    if end == [] {
      NoCalls(g, v);
      NothingFollows(g, v, kept, o, leaves, priced);
    } else {
      NotifyOne(g, end[0]);
      EffectsOne(v, end);
      if end[0].OnRested? {
        RestedFollows(g, v, kept, o, leaves, priced);
      } else {
        TifFollows(g, v, kept, o.(leaves := leaves), priced);
      }
    }
  }

  lemma {:induction false} NothingFollows(g: Gw, v: View, kept: View, o: Order, leaves: int, priced: bool)
    requires FollowsOff(g, v, kept - {o.id}, o.id, priced) && o.id !in v
    requires leaves > 0 ==> o.id in g.active && Stands(g.active[o.id], o, priced)
    ensures Follows(g, v, if leaves > 0 then kept[o.id := o.(leaves := leaves)] else kept - {o.id}, priced)
  {
  }

  lemma {:induction false} RestedFollows(g: Gw, v: View, kept: View, o: Order, leaves: int, priced: bool)
    requires FollowsOff(g, v, kept - {o.id}, o.id, priced) && o.id !in v
    requires o.id in g.active && Stands(g.active[o.id], o, priced)
    ensures var c := OnRested(o, leaves); Follows(Notify(g, c).gw, Effect(v, c), kept - {o.id}, priced)
  {
  }

  lemma {:induction false} TifFollows(g: Gw, v: View, kept: View, o: Order, priced: bool)
    requires FollowsOff(g, v, kept - {o.id}, o.id, priced) && o.id !in v
    ensures var c := OnTifCancel(o); Follows(Notify(g, c).gw, Effect(v, c), kept - {o.id}, priced)
  {
  }

  lemma {:induction false} CancelFollows(
    g: Gw, v: View, kept: View, symbol: Symbol, b: Book, c: CancelReq, priced: bool)
    requires Valid(symbol, b) && Fits(v, symbol, b) && Keyed(v) && Follows(g, v, kept, priced) && v.Keys !! kept.Keys
    ensures var cs := Process(b, CancelItem(c)).calls;
            Follows(NotifyAll(g, cs).gw, Effects(v, cs), kept, priced)
  {
    hide Valid, Shows, Present, Lookup, NotifyAll, Effects;
    FitsPresence(v, symbol, b, c.id);
    var call := OnCancel(c, Present(b, c.id));
    EffectsOne(v, [call]);
    NotifyOne(g, call);
  }

  /** A replace callback that reports the order as found. */
  lemma {:induction false} FoundFollows(g: Gw, v: View, kept: View, q: ReplaceReq, leaves: int, priced: bool)
    requires FollowsOff(g, v, kept, q.id, priced) && q.id in v && leaves >= 0
    requires leaves > 0 ==> q.id in g.active && Stands(g.active[q.id], v[q.id], priced)
    requires leaves > 0 && priced ==> g.Knows(q.id) || q.price == v[q.id].price
    ensures var c := OnReplace(q, true, leaves);
            Follows(NotifyAll(g, [c]).gw, Effects(v, [c]), kept, priced)
  {
    var c := OnReplace(q, true, leaves);
    NotifyOne(g, c);
    EffectsOne(v, [c]);
    hide NotifyAll, Effects;
  }

  lemma {:induction false} ReplaceFollows(
    g: Gw, v: View, kept: View, symbol: Symbol, b: Book, q: ReplaceReq, priced: bool)
    requires Valid(symbol, b) && Fits(v, symbol, b) && Keyed(v) && Honoured(b, q)
    requires Follows(g, v, kept, priced) && v.Keys !! kept.Keys
    requires priced ==> Announced(g, b, ReplaceItem(q))
    ensures var cs := Process(b, ReplaceItem(q)).calls;
            Follows(NotifyAll(g, cs).gw, Effects(v, cs), kept, priced)
  {
    hide Valid, Shows, Present, Available, Follows, FollowsOff, Keyed, Add, Cancel, Lookup, NotifyAll, Effects;
    FitsPresence(v, symbol, b, q.id);
    LookupFinds(symbol, b, q.id);
    FollowsApart(g, v, kept, q.id, priced);
    if Lookup(b, q.id).None? {
      var c := OnReplace(q, false, -1);
      assert Process(b, ReplaceItem(q)).calls == [c] by { assert Fills([]) == []; }
      NotifyOne(g, c);
      EffectsOne(v, [c]);
    } else if Zeroes(b, q) {
      ZeroIsCancel(symbol, b, q);
      FoundFollows(g, v, kept, q, 0, priced);
    } else if InPlace(v[q.id], q.price, q.qty) {
      assert Process(b, ReplaceItem(q)).calls == [OnReplace(q, true, q.qty)] by { assert Fills([]) == []; }
      FoundFollows(g, v, kept, q, q.qty, priced);
    } else {
      ReentryFollows(g, v, kept, symbol, b, q, priced);
    }
  }

  lemma {:induction false} ReentryFollows(
    g: Gw, v: View, kept: View, symbol: Symbol, b: Book, q: ReplaceReq, priced: bool)
    requires Valid(symbol, b) && Fits(v, symbol, b) && Keyed(v) && q.qty >= 1
    requires FollowsOff(g, v, kept, q.id, priced)
    requires q.id in v && Lookup(b, q.id) == Some(v[q.id]) && !InPlace(v[q.id], q.price, q.qty)
    requires q.id in g.active && Stands(g.active[q.id], v[q.id], priced)
    requires priced ==> g.Knows(q.id) || q.price == v[q.id].price
    ensures var cs := Process(b, ReplaceItem(q)).calls;
            Follows(NotifyAll(g, cs).gw, Effects(v, cs), kept, priced)
  {
    hide Valid, Shows, Present, Follows, FollowsOff, Keyed, Add, Cancel, Lookup, NotifyAll, Effects, InPlace, Available,
         Sweepable;
    LookupFinds(symbol, b, q.id);
    var o, x := v[q.id], q.id;
    var b1, o1 := Cancel(b, x), o.(price := q.price, qty := q.qty);
    var r := Add(b1, o1);
    var fills, call := Fills(r.trades), OnReplace(q, true, r.leaves);
    ReentryFacts(symbol, b, v, o, q);
    ReentrySides(v, symbol, b, o, x);
    EntryFollows(g, v, kept, symbol, b1, o1, {x}, priced);
    FoundFollows(NotifyAll(g, fills).gw, Effects(v, fills), kept, q, r.leaves, priced);
    NotifyAppend(g, fills, [call]);
    EffectsAppend(v, fills, [call]);
  }

  /** The step is one of which the table and the mirror are told what they need: they do not
      hold quantities as first ordered. */
  predicate Announced(g: Gw, b: Book, item: WorkItem) {
    match item
    case NewOrder(_) => true
    case CancelItem(c) => Present(b, c.id) ==> g.Knows(c.id)
    case ReplaceItem(q) =>
      match Lookup(b, q.id)
      case None => true
      case Some(o) => g.Knows(q.id) || (q.price == o.price && q.qty == o.leaves)
  }

  /** After any step that keeps the book valid the gateway still has a record of every
      resting and every kept order, with its price unless the step was not announced. */
  lemma {:induction false} StepFollows(
    g: Gw, v: View, kept: View, symbol: Symbol, b: Book, item: WorkItem, priced: bool)
    requires Valid(symbol, b) && Fits(v, symbol, b) && Keyed(v) && Acceptable(symbol, b, v, item)
    requires Follows(g, v, kept, priced) && v.Keys !! kept.Keys
    requires item.NewOrder? ==> item.order.id in kept && kept[item.order.id] == item.order
                                && item.order.leaves == item.order.qty
    requires priced ==> Announced(g, b, item)
    ensures var cs := Process(b, item).calls;
            Follows(NotifyAll(g, cs).gw, Effects(v, cs), KeptAfter(b, item, kept), priced)
  {
    hide Process, Effects, NotifyAll, Follows, Announced;
    match item
    case NewOrder(o) => NewOrderFollows(g, v, kept, symbol, b, o, priced);
    case CancelItem(c) => CancelFollows(g, v, kept, symbol, b, c, priced);
    case ReplaceItem(q) => ReplaceFollows(g, v, kept, symbol, b, q, priced);
  }

  // ---- Whole steps: what is published ----

  /** The same orders, but for the quantities as first ordered. */
  ghost predicate Alike(p: View, p': View) {
    p.Keys == p'.Keys && forall id :: id in p ==> p'[id] == p[id].(qty := p'[id].qty)
  }

  /** Every message about these callbacks is sound, and what is then published is the
      resting orders and ghosts'. */
  ghost predicate Announces(g: Gw, v: View, ghosts: View, cs: seq<Callback>, ghosts': View) {
    && AllSound(g, v + ghosts, cs)
    && Alike(PublishAll(g, v + ghosts, cs), Effects(v, cs) + ghosts')
  }

  lemma {:induction false} OneAnnounces(g: Gw, v: View, ghosts: View, c: Callback, ghosts': View)
    requires Sound(g, v + ghosts, c) && Alike(Publish(g, v + ghosts, c), Effect(v, c) + ghosts')
    ensures Announces(g, v, ghosts, [c], ghosts')
  {
    hide Notify, Effect, Sound, Publish, Alike;
    EffectsOne(v, [c]);
    PublishOne(g, v + ghosts, c);
    SoundOne(g, v + ghosts, c);
  }

  /** Fills that are published as they happen, and then whatever else. */
  lemma {:induction false} ChainAnnounces(
    g: Gw, v: View, ghosts: View, a: seq<Callback>, b: seq<Callback>, ghosts': View)
    requires Shrinking(g, v, ghosts, a) && Announces(NotifyAll(g, a).gw, Effects(v, a), ghosts, b, ghosts')
    ensures Announces(g, v, ghosts, a + b, ghosts')
  {
    hide Effects, NotifyAll, PublishAll, AllSound, Shrunk, Alike;
    NotifyAppend(g, a, b);
    EffectsAppend(v, a, b);
    PublishAppend(g, v + ghosts, a, b);
    SoundAppend(g, v + ghosts, a, b);
  }

  lemma {:induction false} AlikeItself(p: View)
    ensures Alike(p, p)
  {
  }

  lemma {:induction false} NewOrderAnnounces(g: Gw, v: View, ghosts: View, symbol: Symbol, b: Book, o: Order)
    requires Valid(symbol, b) && Fits(v, symbol, b) && Keyed(v) && Acceptable(symbol, b, v, NewOrder(o))
    requires v.Keys !! ghosts.Keys && AllPositive(v + ghosts) && o.id !in ghosts
    ensures Announces(g, v, ghosts, Process(b, NewOrder(o)).calls, ghosts)
  {
    hide Valid, Shows, Keyed, AllPositive, Sweep, Sweepable, Effects, NotifyAll, Announces, Shrinking, Available,
         Elsewhere;
    var r, side := Add(b, o), o.side.Opposite();
    if Killed(b, o) {
      EndAnnounces(g, v, ghosts, o, o.qty, [OnTifCancel(o.(leaves := o.qty))]);
    } else {
      var fills, end := Fills(r.trades), Ending(o, r.leaves);
      var own, opp, t := b.On(o.side), b.On(side), o.(leaves := o.qty);
      BookIsSweepable(symbol, b, side);
      FacingSides(v, symbol, b, side, {});
      SweepPublishes(g, v, ghosts, symbol, own, opp, {}, t);
      SweepShows(v, symbol, own, opp, {}, t);
      EndAnnounces(NotifyAll(g, fills).gw, Effects(v, fills), ghosts, o, r.leaves, end);
      ChainAnnounces(g, v, ghosts, fills, end, ghosts);
    }
  }

  lemma {:induction false} EndAnnounces(g: Gw, v: View, ghosts: View, o: Order, leaves: int, end: seq<Callback>)
    requires o.id !in v && o.id !in ghosts
    requires end == [OnTifCancel(o.(leaves := leaves))] || end == Ending(o, leaves)
    ensures Announces(g, v, ghosts, end, ghosts)
  {
    if end == [] {
      NoCalls(g, v);
      NoCalls(g, v + ghosts);
      AlikeItself(v + ghosts);
    } else {
      if end[0].OnRested? {
        assert (v + ghosts)[o.id := o.(leaves := leaves)] == v[o.id := o.(leaves := leaves)] + ghosts;
      }
      AlikeItself(Effect(v, end[0]) + ghosts);
      hide Announces, Alike;
      OneAnnounces(g, v, ghosts, end[0], ghosts);
    }
  }

  lemma {:induction false} CancelAnnounces(
    g: Gw, v: View, kept: View, ghosts: View, symbol: Symbol, b: Book, c: CancelReq)
    requires Valid(symbol, b) && Fits(v, symbol, b) && Keyed(v) && Follows(g, v, kept, true)
    requires Announced(g, b, CancelItem(c)) && v.Keys !! ghosts.Keys
    ensures Announces(g, v, ghosts, Process(b, CancelItem(c)).calls, ghosts)
  {
    hide Valid, Shows, Present, Lookup, Announces, Alike;
    FitsPresence(v, symbol, b, c.id);
    var call := OnCancel(c, Present(b, c.id));
    if Present(b, c.id) {
      assert Stands(g.active[c.id], v[c.id], true) && v[c.id].id == c.id;
      assert (v + ghosts) - {c.id} == (v - {c.id}) + ghosts;
    }
    AlikeItself(Effect(v, call) + ghosts);
    OneAnnounces(g, v, ghosts, call, ghosts);
  }

  /** A replace callback that reports some of the order as left. */
  lemma {:induction false} LeftAnnounces(g: Gw, v: View, ghosts: View, q: ReplaceReq, leaves: int)
    requires q.id in v && leaves > 0 && v.Keys !! ghosts.Keys && v[q.id].symbol == q.symbol && v[q.id].side == q.side
    requires g.Knows(q.id) && g.active[q.id].price == v[q.id].price
    ensures Announces(g, v, ghosts, [OnReplace(q, true, leaves)], ghosts)
  {
    var c := OnReplace(q, true, leaves);
    var o := v[q.id].(price := q.price, qty := q.qty, leaves := leaves);
    assert (v + ghosts)[q.id := o] == v[q.id := o] + ghosts;
    AlikeItself(Effect(v, c) + ghosts);
    hide Announces, Alike;
    OneAnnounces(g, v, ghosts, c, ghosts);
  }

  /** A replace callback that goes unnoticed: what it left in the book is what was published,
      or the order is gone and stays published. */
  lemma {:induction false} LostAnnounces(g: Gw, v: View, ghosts: View, q: ReplaceReq, leaves: int)
    requires q.id in v && leaves >= 0 && v.Keys !! ghosts.Keys && !g.Knows(q.id)
    requires leaves > 0 ==> q.price == v[q.id].price && leaves == v[q.id].leaves
    ensures Announces(g, v, ghosts, [OnReplace(q, true, leaves)],
              if leaves == 0 then ghosts[q.id := v[q.id]] else ghosts)
  {
    var c := OnReplace(q, true, leaves);
    var ghosts' := if leaves == 0 then ghosts[q.id := v[q.id]] else ghosts;
    var p := Effect(v, c) + ghosts';
    assert leaves == 0 ==> v + ghosts == p;
    assert p.Keys == (v + ghosts).Keys;
    assert Alike(v + ghosts, p);
    hide Announces, Alike;
    OneAnnounces(g, v, ghosts, c, ghosts');
  }

  lemma {:induction false} ReplaceAnnounces(
    g: Gw, v: View, kept: View, ghosts: View, symbol: Symbol, b: Book, q: ReplaceReq)
    requires Valid(symbol, b) && Fits(v, symbol, b) && Keyed(v) && Honoured(b, q) && !Zeroes(b, q)
    requires Follows(g, v, kept, true) && v.Keys !! kept.Keys && Announced(g, b, ReplaceItem(q))
    requires v.Keys !! ghosts.Keys && AllPositive(v + ghosts)
    requires q.symbol == symbol && (q.id in v ==> v[q.id].side == q.side)
    ensures Announces(g, v, ghosts, Process(b, ReplaceItem(q)).calls, GhostsAfter(b, ReplaceItem(q), v, ghosts))
  {
    hide Valid, Shows, Present, Available, Follows, FollowsOff, Keyed, Add, Cancel, Lookup, AllPositive, Announces;
    FitsPresence(v, symbol, b, q.id);
    LookupFinds(symbol, b, q.id);
    FollowsApart(g, v, kept, q.id, true);
    var ghosts' := GhostsAfter(b, ReplaceItem(q), v, ghosts);
    if Lookup(b, q.id).None? {
      assert Process(b, ReplaceItem(q)).calls == [OnReplace(q, false, -1)] by { assert Fills([]) == []; }
      AlikeItself(v + ghosts);
      OneAnnounces(g, v, ghosts, OnReplace(q, false, -1), ghosts);
    } else if q.price == v[q.id].price && q.qty == v[q.id].leaves {
      SameAnnounces(g, v, ghosts, symbol, b, v[q.id], q);
    } else if InPlace(v[q.id], q.price, q.qty) {
      assert Process(b, ReplaceItem(q)).calls == [OnReplace(q, true, q.qty)] by { assert Fills([]) == []; }
      LeftAnnounces(g, v, ghosts, q, q.qty);
    } else {
      ReentryAnnounces(g, v, kept, ghosts, symbol, b, q);
    }
  }

  lemma {:induction false} SameAnnounces(
    g: Gw, v: View, ghosts: View, symbol: Symbol, b: Book, o: Order, q: ReplaceReq)
    requires Valid(symbol, b) && Lookup(b, q.id) == Some(o) && o.id == q.id && q.price == o.price && q.qty == o.leaves
    requires q.id in v && v[q.id] == o && v.Keys !! ghosts.Keys && o.leaves > 0
    requires o.symbol == q.symbol && o.side == q.side
    requires g.Knows(q.id) ==> g.active[q.id].price == o.price
    ensures Announces(g, v, ghosts, Process(b, ReplaceItem(q)).calls, GhostsAfter(b, ReplaceItem(q), v, ghosts))
  {
    hide Valid, Lookup, Cancel, Add, Announces, FillsOnReentry;
    OwnPriceMeetsNothing(symbol, b, o, q.qty);
    NotFilled(symbol, b, o, q);
    assert o.(price := q.price, qty := q.qty) == o.(qty := q.qty);
    assert Process(b, ReplaceItem(q)).calls == [OnReplace(q, true, q.qty)] by { assert Fills([]) == []; }
    if g.Knows(q.id) {
      LeftAnnounces(g, v, ghosts, q, q.qty);
    } else {
      LostAnnounces(g, v, ghosts, q, q.qty);
    }
  }

  lemma {:induction false} ReentryAnnounces(
    g: Gw, v: View, kept: View, ghosts: View, symbol: Symbol, b: Book, q: ReplaceReq)
    requires Valid(symbol, b) && Fits(v, symbol, b) && Keyed(v) && q.qty >= 1 && g.Knows(q.id)
    requires FollowsOff(g, v, kept, q.id, true) && v.Keys !! ghosts.Keys && AllPositive(v + ghosts)
    requires q.id in v && Lookup(b, q.id) == Some(v[q.id]) && !InPlace(v[q.id], q.price, q.qty)
    requires Stands(g.active[q.id], v[q.id], true) && q.symbol == symbol && v[q.id].side == q.side
    ensures Announces(g, v, ghosts, Process(b, ReplaceItem(q)).calls, GhostsAfter(b, ReplaceItem(q), v, ghosts))
  {
    hide Valid, Shows, Present, FollowsOff, Keyed, Add, Cancel, Lookup, NotifyAll, Effects, InPlace, Available,
         Sweepable, AllPositive, Announces, Shrinking, FillsOnReentry;
    LookupFinds(symbol, b, q.id);
    var o, x, side := v[q.id], q.id, v[q.id].side.Opposite();
    var b1, o1 := Cancel(b, x), o.(price := q.price, qty := q.qty);
    var r := Add(b1, o1);
    var fills, call := Fills(r.trades), OnReplace(q, true, r.leaves);
    ReentryFacts(symbol, b, v, o, q);
    ReentrySides(v, symbol, b, o, x);
    EntryFollows(g, v, kept, symbol, b1, o1, {x}, true);
    EntryShrinks(g, v, ghosts, symbol, b1, o1, {x});
    var g1, v1 := NotifyAll(g, fills).gw, Effects(v, fills);
    if r.leaves > 0 {
      LeftAnnounces(g1, v1, ghosts, q, r.leaves);
    } else {
      LostAnnounces(g1, v1, ghosts, q, 0);
    }
    ChainAnnounces(g, v, ghosts, fills, [call], GhostsAfter(b, ReplaceItem(q), v, ghosts));
  }

  lemma {:induction false} EntryShrinks(
    g: Gw, v: View, ghosts: View, symbol: Symbol, b: Book, o: Order, slack: set<Id>)
    requires Shows(v, symbol, b.On(o.side), b.On(o.side.Opposite()), slack) && Keyed(v)
    requires Sweepable(symbol, b.On(o.side), b.On(o.side.Opposite()))
    requires v.Keys !! ghosts.Keys && AllPositive(v + ghosts)
    ensures Shrinking(g, v, ghosts, Fills(Add(b, o).trades))
  {
    hide Shows, Keyed, Sweepable, AllPositive, Shrinking;
    SweepPublishes(g, v, ghosts, symbol, b.On(o.side), b.On(o.side.Opposite()), slack, o.(leaves := o.qty));
  }

  /** After any step that keeps the book valid, is announced, and does not replace an order by
      nothing, every message sent was sound, and what has been published is the resting
      orders plus the ghosts. */
  lemma {:induction false} StepAnnounces(
    g: Gw, v: View, kept: View, ghosts: View, symbol: Symbol, b: Book, item: WorkItem)
    requires Valid(symbol, b) && Fits(v, symbol, b) && Keyed(v) && Acceptable(symbol, b, v, item)
    requires Follows(g, v, kept, true) && v.Keys !! kept.Keys && Announced(g, b, item)
    requires v.Keys !! ghosts.Keys && AllPositive(v + ghosts)
    requires match item
             case NewOrder(o) => o.id !in ghosts
             case CancelItem(_) => true
             case ReplaceItem(q) => !Zeroes(b, q) && (q.id in v ==> v[q.id].side == q.side)
    ensures Announces(g, v, ghosts, Process(b, item).calls, GhostsAfter(b, item, v, ghosts))
  {
    hide Process, Follows, Announced, Announces, AllPositive;
    match item
    case NewOrder(o) => NewOrderAnnounces(g, v, ghosts, symbol, b, o);
    case CancelItem(c) => CancelAnnounces(g, v, kept, ghosts, symbol, b, c);
    case ReplaceItem(q) => ReplaceAnnounces(g, v, kept, ghosts, symbol, b, q);
  }
}
