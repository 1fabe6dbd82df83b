/** The gateway's active orders against the book, callback by callback. */
module Agreement {
  import opened Options
  import opened Orders
  import opened Matching
  import opened Books
  import opened Engine
  import opened Views
  import opened Gateway
  import opened Publishing
  import opened Leftovers

  /** The gateway has a record of the resting orders, the orders in kept, and nothing else.
      Only resting orders may be without a session. */
  ghost predicate Agree(g: Gw, v: View, kept: View) {
    && v.Keys !! kept.Keys
    && g.active == v + kept
    && kept.Keys <= g.sessions.Keys <= g.active.Keys
  }

  /** The same, leaving the order x, which is being matched, out of account. */
  ghost predicate AgreeOff(g: Gw, v: View, kept: View, x: Id) {
    && x !in kept && v.Keys !! kept.Keys
    && kept.Keys <= g.sessions.Keys <= g.active.Keys
    && (x in g.active ==> x in g.sessions)
    && (forall id :: id in v && id != x ==> id in g.active && g.active[id] == v[id])
    && (forall id :: id in kept ==> g.active[id] == kept[id])
    && (forall id :: id in g.active && id != x ==> id in v || id in kept)
  }

  /** The gateway's record of x once the fills so far have left it with leaves. */
  ghost predicate TakerKnown(g: Gw, x: Id, entry: Order, leaves: int) {
    if leaves == 0 then x !in g.active
    else x in g.active && g.active[x] == entry.(leaves := leaves)
  }

  /** The first n orders of a side have sessions. */
  ghost predicate Met(g: Gw, opp: seq<Order>, n: nat) {
    forall i :: 0 <= i < |opp| && i < n ==> opp[i].id in g.sessions
  }

  lemma {:induction false} FillAgrees(g: Gw, v: View, kept: View, t: Trade, entry: Order)
    requires AgreeOff(g, v, kept, t.taker.id) && Keyed(v) && t.maker.id in g.sessions
    requires t.maker.id in v && t.maker.id != t.taker.id && t.maker.leaves >= 0 && t.taker.leaves >= 0
    requires t.taker.id in g.active && g.active[t.taker.id] == entry.(leaves := g.active[t.taker.id].leaves)
    ensures var g', v' := Notify(g, OnFill(t)).gw, Effect(v, OnFill(t));
            && AgreeOff(g', v', kept, t.taker.id)
            && TakerKnown(g', t.taker.id, entry, t.taker.leaves)
            && (forall id :: id in g.sessions && id != t.maker.id && id != t.taker.id ==> id in g'.sessions)
  {
    hide AgreeOff, SendFill, Effect;
    MakerAgrees(g, v, kept, t.taker.id, t);
    TakerAgrees(SendFill(g, t.maker), Effect(v, OnFill(t)), kept, t.taker, entry);
  }

  lemma {:induction false} MakerAgrees(g: Gw, v: View, kept: View, x: Id, t: Trade)
    requires AgreeOff(g, v, kept, x) && t.maker.id in v && t.maker.id != x && t.maker.leaves >= 0
    requires t.maker.id in g.sessions && x in g.active
    ensures var g1 := SendFill(g, t.maker);
            && AgreeOff(g1, Effect(v, OnFill(t)), kept, x) && x in g1.active && g1.active[x] == g.active[x]
            && (forall id :: id in g.sessions && id != t.maker.id ==> id in g1.sessions)
  {
    var m, v', g1 := t.maker, Effect(v, OnFill(t)), SendFill(g, t.maker);
    assert g.active[m.id] == v[m.id];
    if m.leaves == 0 {
      assert v' == v - {m.id} && g1 == g.Forget(m.id);
    } else {
      assert v' == v[m.id := v[m.id].(leaves := m.leaves)];
      assert g1 == g.(active := g.active[m.id := g.active[m.id].(leaves := m.leaves)]);
    }
    hide Effect, SendFill;
  }

  lemma {:induction false} TakerAgrees(g: Gw, v: View, kept: View, f: Fill, entry: Order)
    requires AgreeOff(g, v, kept, f.id) && f.leaves >= 0
    requires f.id in g.active && g.active[f.id] == entry.(leaves := g.active[f.id].leaves)
    ensures var g1 := SendFill(g, f);
            && AgreeOff(g1, v, kept, f.id) && TakerKnown(g1, f.id, entry, f.leaves)
            && (forall id :: id in g.sessions && id != f.id ==> id in g1.sessions)
  {
  }

  /** The state of the copies in the middle of a sweep by x that has n trades to go. */
  ghost predicate Sweeping(
    g: Gw, v: View, kept: View, symbol: Symbol, own: seq<Order>, opp: seq<Order>, slack: set<Id>, x: Id, n: nat)
  {
    && Shows(v, symbol, own, opp, slack) && Sweepable(symbol, own, opp) && Keyed(v)
    && AgreeOff(g, v, kept, x) && Met(g, opp, n) && !Holds(opp, x)
  }

  lemma {:induction false} TradeAgrees(
    g: Gw, v: View, kept: View, symbol: Symbol, own: seq<Order>, opp: seq<Order>, slack: set<Id>,
    taker: Order, entry: Order, qty: int, n: nat)
    requires Sweeping(g, v, kept, symbol, own, opp, slack, taker.id, n) && n > 0 && opp != []
    requires 0 < qty <= Min(taker.leaves, opp[0].leaves) && (qty == opp[0].leaves || n == 1)
    requires taker.id in g.active && g.active[taker.id] == entry
    ensures var t := TradeOf(taker, opp[0], qty);
            var g1, v1 := Notify(g, OnFill(t)).gw, Effect(v, OnFill(t));
            && Sweeping(g1, v1, kept, symbol, own, Front(opp, qty), slack, taker.id, n - 1)
            && TakerKnown(g1, taker.id, entry, taker.leaves - qty)
  {
    assert opp[0].id in g.sessions && opp[0].id != taker.id;
    hide Shows, Notify, Effect, AgreeOff, Keyed, Sweepable, Front, Elsewhere, Met, Holds;
    FrontListed(v, symbol, own, opp, slack);
    FillShows(v, symbol, own, opp, slack, taker, qty);
    FillAgrees(g, v, kept, TradeOf(taker, opp[0], qty), entry);
    StillMet(g, Notify(g, OnFill(TradeOf(taker, opp[0], qty))).gw, symbol, own, opp, n, qty, taker.id);
  }

  lemma {:induction false} SweepAgrees(
    g: Gw, v: View, kept: View, symbol: Symbol, own: seq<Order>, opp: seq<Order>, slack: set<Id>,
    taker: Order, entry: Order)
    requires Sweeping(g, v, kept, symbol, own, opp, slack, taker.id, |Sweep(taker, opp).trades|)
    requires taker.leaves >= 0 && taker.id in g.active && g.active[taker.id] == entry
    ensures var r := Sweep(taker, opp);
            var g', v' := NotifyAll(g, Fills(r.trades)).gw, Effects(v, Fills(r.trades));
            && AgreeOff(g', v', kept, taker.id)
            && if r.trades == [] then taker.id in g'.active && g'.active[taker.id] == entry
               else TakerKnown(g', taker.id, entry, r.taker.leaves)
    decreases taker.leaves
  {
    hide Notify, Effect, AgreeOff, Sweep, Front, Fills, Positive, Sweeping, TradeOf, Effects, NotifyAll, Crosses;
    SweepingAgrees(g, v, kept, symbol, own, opp, slack, taker.id, |Sweep(taker, opp).trades|);
    SweepUnfolds(taker, opp);
    if Stops(taker, opp) {
      FillsCons(TradeOf(taker, taker, 0), []);
      NoCalls(g, v);
    } else {
      var qty := Min(taker.leaves, opp[0].leaves);
      var t, taker', opp' := TradeOf(taker, opp[0], qty), taker.(leaves := taker.leaves - qty), Front(opp, qty);
      var ts := Sweep(taker', opp').trades;
      TradeAgrees(g, v, kept, symbol, own, opp, slack, taker, entry, qty, |ts| + 1);
      var g1, v1 := Notify(g, OnFill(t)).gw, Effect(v, OnFill(t));
      FillsCons(t, ts);
      FirstCall(g, v, Fills([t] + ts));
      SweepUnfolds(taker', opp');
      if taker'.leaves > 0 {
        SweepAgrees(g1, v1, kept, symbol, own, opp', slack, taker', entry.(leaves := taker'.leaves));
      } else {
        FillsCons(t, []);
        NoCalls(g1, v1);
        SweepingAgrees(g1, v1, kept, symbol, own, opp', slack, taker.id, 0);
      }
    }
  }

  lemma {:induction false} SweepingAgrees(
    g: Gw, v: View, kept: View, symbol: Symbol, own: seq<Order>, opp: seq<Order>, slack: set<Id>, x: Id, n: nat)
    requires Sweeping(g, v, kept, symbol, own, opp, slack, x, n)
    ensures AgreeOff(g, v, kept, x) && Positive(opp)
  {
  }

  lemma {:induction false} StillMet(
    g: Gw, g1: Gw, symbol: Symbol, own: seq<Order>, opp: seq<Order>, n: nat, qty: int, x: Id)
    requires Met(g, opp, n) && opp != [] && Sweepable(symbol, own, opp) && !Holds(opp, x) && n > 0
    requires forall id :: id in g.sessions && id != opp[0].id && id != x ==> id in g1.sessions
    requires qty == opp[0].leaves || n == 1
    ensures Met(g1, Front(opp, qty), n - 1)
  {
    if n > 1 {
      forall i | 0 <= i < |opp[1..]| && i < n - 1
        ensures opp[1..][i].id in g1.sessions
      {
        assert opp[i + 1].id in g.sessions && opp[0].id != opp[i + 1].id && opp[i + 1].id != x;
      }
    }
  }

  // ---- Whole steps ----

  /** The step changes no order that has no session. */
  ghost predicate Untouched(g: Gw, b: Book, item: WorkItem) {
    match item
    case NewOrder(o) => Killed(b, o) || Met(g, b.On(o.side.Opposite()), |Add(b, o).trades|)
    case CancelItem(c) => Present(b, c.id) ==> c.id in g.sessions
    case ReplaceItem(q) =>
      match Lookup(b, q.id)
      case None => true
      case Some(o) =>
        && (q.id in g.sessions || Idle(o, q))
        && Met(g, b.On(o.side.Opposite()), |Replace(b, q.id, q.price, q.qty).trades|)
  }

  ghost predicate Waits(kept: View, item: WorkItem) {
    match item
    case NewOrder(o) => o.id in kept && kept[o.id] == o && o.leaves == o.qty
    case _ => true
  }

  /** These callbacks leave the gateway with a record of the resting orders and of kept'. */
  ghost predicate Settles(g: Gw, v: View, cs: seq<Callback>, kept': View) {
    Agree(NotifyAll(g, cs).gw, Effects(v, cs), kept')
  }

  lemma {:induction false} OneSettles(g: Gw, v: View, c: Callback, kept': View)
    requires Agree(Notify(g, c).gw, Effect(v, c), kept')
    ensures Settles(g, v, [c], kept')
  {
    hide Agree, Notify, Effect;
    EffectsOne(v, [c]);
    NotifyOne(g, c);
  }

  lemma {:induction false} ChainSettles(g: Gw, v: View, a: seq<Callback>, b: seq<Callback>, kept': View)
    requires Settles(NotifyAll(g, a).gw, Effects(v, a), b, kept')
    ensures Settles(g, v, a + b, kept')
  {
    hide Agree, Effects, NotifyAll;
    NotifyAppend(g, a, b);
    EffectsAppend(v, a, b);
  }

  lemma {:induction false} EnterAgreement(g: Gw, v: View, kept: View, x: Id)
    requires Agree(g, v, kept)
    ensures x in kept ==> AgreeOff(g, v, kept - {x}, x)
    ensures x in v && x in g.sessions ==> AgreeOff(g, v, kept, x)
    ensures x in v ==> x in g.active && g.active[x] == v[x] && (x in g.sessions <==> g.Knows(x))
  {
  }

  /** The aggressor's record falls into place: forgotten, written, or kept. */
  lemma {:induction false} ForgetAgrees(g: Gw, v: View, kept: View, x: Id)
    requires AgreeOff(g, v, kept, x)
    ensures Agree(if x in g.sessions then g.Forget(x) else g, v - {x}, kept)
    ensures x !in g.active ==> x !in g.sessions
  {
    assert g.active - {x} == (v - {x}) + kept;
    assert x !in g.active ==> g.active - {x} == g.active;
  }

  lemma {:induction false} WriteAgrees(g: Gw, v: View, kept: View, x: Id, o: Order)
    requires AgreeOff(g, v, kept, x) && x in g.active
    ensures g.Knows(x) && Agree(g.(active := g.active[x := o]), v[x := o], kept)
  {
    assert g.active[x := o] == v[x := o] + kept;
  }

  lemma {:induction false} KeepAgrees(g: Gw, v: View, kept: View, x: Id)
    requires AgreeOff(g, v, kept, x) && x in g.active && x !in v
    ensures Agree(g, v, kept[x := g.active[x]])
  {
    assert g.active == v + kept[x := g.active[x]];
  }

  // ---- New orders ----

  lemma {:induction false} NewOrderAgrees(g: Gw, v: View, kept: View, symbol: Symbol, b: Book, o: Order)
    requires Valid(symbol, b) && Fits(v, symbol, b) && Keyed(v) && Acceptable(symbol, b, v, NewOrder(o))
    requires Agree(g, v, kept) && Untouched(g, b, NewOrder(o)) && Waits(kept, NewOrder(o))
    ensures Settles(g, v, Process(b, NewOrder(o)).calls, KeptAfter(b, NewOrder(o), kept))
  {
    hide Valid, Shows, Agree, AgreeOff, Keyed, Present, Depth, Settles, Add, Lookup, Sweepable, Met;
    var x, r, side := o.id, Add(b, o), o.side.Opposite();
    FitsPresence(v, symbol, b, x);
    EnterAgreement(g, v, kept, x);
    TakerApart(g, v, kept, b, o);
    if Killed(b, o) {
      EndingSettles(g, v, kept, o, o.qty, [OnTifCancel(o)], kept - {x});
      assert o.(leaves := o.qty) == o;
    } else {
      var fills, end := Fills(r.trades), Ending(o, r.leaves);
      BookIsSweepable(symbol, b, side);
      FacingSides(v, symbol, b, side, {});
      EntrySweep(g, v, kept - {x}, symbol, b, o, o, {});
      EndingDropsIff(symbol, b, o);
      var g1, v1 := NotifyAll(g, fills).gw, Effects(v, fills);
      hide Effects, NotifyAll, Killed, Drops;
      EndingSettles(g1, v1, kept, o, r.leaves, end, KeptAfter(b, NewOrder(o), kept));
      ChainSettles(g, v, fills, end, KeptAfter(b, NewOrder(o), kept));
    }
  }

  lemma {:induction false} TakerApart(g: Gw, v: View, kept: View, b: Book, o: Order)
    requires Agree(g, v, kept) && o.id in kept && kept[o.id] == o && !Present(b, o.id)
    ensures o.id in g.active && g.active[o.id] == o && o.id !in v
    ensures forall side: Side :: !Holds(b.On(side), o.id)
  {
  }

  /** The fills of an order that enters the book: the gateway's records follow, the
      aggressor's too. */
  lemma {:induction false} EntrySweep(
    g: Gw, v: View, kept: View, symbol: Symbol, b: Book, o: Order, entry: Order, slack: set<Id>)
    requires AgreeOff(g, v, kept, o.id) && o.id in g.active && g.active[o.id] == entry && o.qty >= 1
    requires Met(g, b.On(o.side.Opposite()), |Add(b, o).trades|)
    requires Shows(v, symbol, b.On(o.side), b.On(o.side.Opposite()), slack) && Keyed(v)
    requires Sweepable(symbol, b.On(o.side), b.On(o.side.Opposite())) && !Present(b, o.id)
    ensures var r := Add(b, o); var fills := Fills(r.trades);
            var g1, v1 := NotifyAll(g, fills).gw, Effects(v, fills);
            && AgreeOff(g1, v1, kept, o.id)
            && (r.leaves == o.qty <==> r.trades == [])
            && (if r.trades == [] then o.id in g1.active && g1.active[o.id] == entry
                else TakerKnown(g1, o.id, entry, r.leaves))
            && v1.Keys <= v.Keys && (o.id in v ==> o.id in v1 && v1[o.id] == v[o.id])
  {
    hide Shows, AgreeOff, Keyed, Effects, NotifyAll, Sweepable, Met, Elsewhere;
    var t, own, opp := o.(leaves := o.qty), b.On(o.side), b.On(o.side.Opposite());
    SweepAgrees(g, v, kept, symbol, own, opp, slack, t, entry);
    SweepShows(v, symbol, own, opp, slack, t);
    TradesTake(symbol, own, opp, t);
  }

  /** The callback after the fills settles the aggressor's account. */
  lemma {:induction false} EndingSettles(
    g: Gw, v: View, kept: View, o: Order, leaves: int, end: seq<Callback>, kept': View)
    requires o.id in kept && kept[o.id] == o && o.leaves == o.qty && o.qty >= 1 && 0 <= leaves <= o.qty
    requires v.Keys !! kept.Keys && AgreeOff(g, v, kept - {o.id}, o.id)
    requires if leaves == o.qty then o.id in g.active && g.active[o.id] == o else TakerKnown(g, o.id, o, leaves)
    requires end == [OnTifCancel(o.(leaves := leaves))] || end == Ending(o, leaves)
    requires kept' == if leaves > 0 && end == [] then kept[o.id := o.(leaves := leaves)] else kept - {o.id}
    ensures Settles(g, v, end, kept')
  {
    hide AgreeOff, Agree, Settles;
    var x, o', kept0 := o.id, o.(leaves := leaves), kept - {o.id};
    assert v - {x} == v;
    if end == [] {
      if leaves > 0 {
        KeepAgrees(g, v, kept0, x);
        assert kept0[x := o'] == kept';
      } else {
        ForgetAgrees(g, v, kept0, x);
      }
      NothingSettles(g, v, kept');
    } else {
      if end[0].OnRested? {
        WriteAgrees(g, v, kept0, x, o');
        assert g.active[x := o'] == g.active && g.(active := g.active) == g;
      } else {
        ForgetAgrees(g, v, kept0, x);
      }
      OneSettles(g, v, end[0], kept');
    }
  }

  lemma {:induction false} NothingSettles(g: Gw, v: View, kept: View)
    requires Agree(g, v, kept)
    ensures Settles(g, v, [], kept)
  {
  }

  // ---- Cancels and replaces ----

  lemma {:induction false} CancelAgrees(g: Gw, v: View, kept: View, symbol: Symbol, b: Book, c: CancelReq)
    requires Valid(symbol, b) && Fits(v, symbol, b) && Keyed(v)
    requires Agree(g, v, kept) && Untouched(g, b, CancelItem(c))
    ensures Settles(g, v, Process(b, CancelItem(c)).calls, kept)
  {
    hide Valid, Shows, Present, Lookup, Agree, AgreeOff, Settles;
    FitsPresence(v, symbol, b, c.id);
    EnterAgreement(g, v, kept, c.id);
    if Present(b, c.id) {
      ForgetAgrees(g, v, kept, c.id);
    }
    OneSettles(g, v, OnCancel(c, Present(b, c.id)), kept);
  }

  lemma {:induction false} ReplaceAgrees(g: Gw, v: View, kept: View, symbol: Symbol, b: Book, q: ReplaceReq)
    requires Valid(symbol, b) && Fits(v, symbol, b) && Keyed(v) && Honoured(b, q)
    requires Agree(g, v, kept) && Untouched(g, b, ReplaceItem(q))
    ensures Settles(g, v, Process(b, ReplaceItem(q)).calls, kept)
  {
    hide Valid, Shows, Present, Available, Agree, AgreeOff, Settles, Met, Keyed, Add, Cancel, Lookup;
    FitsPresence(v, symbol, b, q.id);
    LookupFinds(symbol, b, q.id);
    EnterAgreement(g, v, kept, q.id);
    if Lookup(b, q.id).None? {
      assert Process(b, ReplaceItem(q)).calls == [OnReplace(q, false, -1)] by { assert Fills([]) == []; }
      OneSettles(g, v, OnReplace(q, false, -1), kept);
    } else if q.id !in g.sessions {
      IdleAgrees(g, v, kept, symbol, b, q);
    } else if Zeroes(b, q) {
      ZeroIsCancel(symbol, b, q);
      ForgetAgrees(g, v, kept, q.id);
      OneSettles(g, v, OnReplace(q, true, 0), kept);
    } else if InPlace(v[q.id], q.price, q.qty) {
      assert Process(b, ReplaceItem(q)).calls == [OnReplace(q, true, q.qty)] by { assert Fills([]) == []; }
      ReplacedSettles(g, v, kept, v[q.id], q, q.qty);
    } else {
      ReentryAgrees(g, v, kept, symbol, b, q);
    }
  }

  /** A replace of an order without session that asks for what already rests goes unnoticed. */
  lemma {:induction false} IdleAgrees(g: Gw, v: View, kept: View, symbol: Symbol, b: Book, q: ReplaceReq)
    requires Valid(symbol, b) && Keyed(v) && Agree(g, v, kept) && q.id !in g.sessions
    requires q.id in v && Lookup(b, q.id) == Some(v[q.id]) && Idle(v[q.id], q)
    ensures Settles(g, v, Process(b, ReplaceItem(q)).calls, kept)
  {
    var o, call := v[q.id], OnReplace(q, true, q.qty);
    assert o.id == q.id;
    LookupFinds(symbol, b, q.id);
    OwnPriceMeetsNothing(symbol, b, o, q.qty);
    hide Valid, Agree, Keyed, Lookup, Cancel, Settles, Add, Present;
    assert o.(price := q.price, qty := q.qty) == o.(qty := q.qty);
    assert Process(b, ReplaceItem(q)).calls == [call] by { assert Fills([]) == []; }
    assert v[q.id := o] == v;
    OneSettles(g, v, call, kept);
  }

  lemma {:induction false} ReentryAgrees(g: Gw, v: View, kept: View, symbol: Symbol, b: Book, q: ReplaceReq)
    requires Valid(symbol, b) && Fits(v, symbol, b) && Keyed(v) && q.qty >= 1 && Untouched(g, b, ReplaceItem(q))
    requires Agree(g, v, kept) && q.id in g.sessions
    requires q.id in v && Lookup(b, q.id) == Some(v[q.id]) && !InPlace(v[q.id], q.price, q.qty)
    ensures Settles(g, v, Process(b, ReplaceItem(q)).calls, kept)
  {
    hide Valid, Shows, AgreeOff, Keyed, Present, Lookup, Effects, NotifyAll, Add, Cancel, Available, Agree, Sweepable,
         InPlace, Settles, Met;
    LookupFinds(symbol, b, q.id);
    var o, x := v[q.id], q.id;
    var b1, o1 := Cancel(b, x), o.(price := q.price, qty := q.qty);
    var r := Add(b1, o1);
    var fills, call := Fills(r.trades), OnReplace(q, r.leaves >= 0, r.leaves);
    ReentryFacts(symbol, b, v, o, q);
    EnterAgreement(g, v, kept, x);
    ReentrySides(v, symbol, b, o, x);
    EntrySweep(g, v, kept, symbol, b1, o1, o, {x});
    ReplacedSettles(NotifyAll(g, fills).gw, Effects(v, fills), kept, o, q, r.leaves);
    ChainSettles(g, v, fills, [call], kept);
  }

  /** The replace callback settles the re-entered order's account, unless its session is already gone. */
  lemma {:induction false} ReplacedSettles(g: Gw, v: View, kept: View, o: Order, q: ReplaceReq, leaves: int)
    requires AgreeOff(g, v, kept, q.id) && q.id in v && v[q.id] == o && o.id == q.id && 0 <= leaves
    requires if leaves == 0 then q.id !in g.active
             else q.id in g.active && g.active[q.id] == o.(leaves := g.active[q.id].leaves)
    ensures Settles(g, v, [OnReplace(q, true, leaves)], kept)
  {
    hide AgreeOff, Agree, Settles;
    ForgetAgrees(g, v, kept, q.id);
    if leaves > 0 {
      WriteAgrees(g, v, kept, q.id, o.(price := q.price, qty := q.qty, leaves := leaves));
    }
    OneSettles(g, v, OnReplace(q, true, leaves), kept);
  }

  /** After any step that keeps the book valid and touches no order without a session, the
      gateway has a record of exactly the resting orders and the kept ones, each with its
      current price, quantity and leaves. */
  lemma {:induction false} StepAgrees(g: Gw, v: View, kept: View, symbol: Symbol, b: Book, item: WorkItem)
    requires Valid(symbol, b) && Fits(v, symbol, b) && Keyed(v) && Acceptable(symbol, b, v, item)
    requires Agree(g, v, kept) && Untouched(g, b, item) && Waits(kept, item)
    ensures Agree(NotifyAll(g, Process(b, item).calls).gw, Effects(v, Process(b, item).calls), KeptAfter(b, item, kept))
  {
    hide Agree, Process, Effects, NotifyAll, KeptAfter;
    match item
    case NewOrder(o) => NewOrderAgrees(g, v, kept, symbol, b, o);
    case CancelItem(c) =>
      CancelAgrees(g, v, kept, symbol, b, c);
      assert KeptAfter(b, item, kept) == kept by { NothingKept(b, item, kept); }
    case ReplaceItem(q) =>
      ReplaceAgrees(g, v, kept, symbol, b, q);
      assert KeptAfter(b, item, kept) == kept by { NothingKept(b, item, kept); }
  }

  lemma {:induction false} NothingKept(b: Book, item: WorkItem, kept: View)
    requires !item.NewOrder?
    ensures KeptAfter(b, item, kept) == kept
  {
  }
}
