/** The resting orders as the outside world is told about them. Cancels and replaces of
    orders the gateway no longer knows are not passed on. */
module Publishing {
  import opened Orders
  import opened Matching
  import opened Books
  import opened Engine
  import opened Views
  import opened Gateway

  predicate Delivered(g: Gw, c: Callback) {
    match c
    case OnCancel(c, _) => g.Knows(c.id)
    case OnReplace(q, _, _) => g.Knows(q.id)
    case _ => true
  }

  function Publish(g: Gw, p: View, c: Callback): View {
    if Delivered(g, c) then Effect(p, c) else p
  }

  function PublishAll(g: Gw, p: View, cs: seq<Callback>): View
    decreases |cs|
  {
    if cs == [] then p else PublishAll(Notify(g, cs[0]).gw, Publish(g, p, cs[0]), cs[1..])
  }

  lemma {:induction false} PublishAppend(g: Gw, p: View, a: seq<Callback>, b: seq<Callback>)
    ensures PublishAll(g, p, a + b) == PublishAll(NotifyAll(g, a).gw, PublishAll(g, p, a), b)
    decreases |a|
  {
    if a == [] {
      assert a + b == b;
    } else {
      assert (a + b)[1..] == a[1..] + b;
      PublishAppend(Notify(g, a[0]).gw, Publish(g, p, a[0]), a[1..], b);
    }
  }

  lemma {:induction false} PublishOne(g: Gw, p: View, c: Callback)
    ensures PublishAll(g, p, [c]) == Publish(g, p, c)
  {
    assert [c][1..] == [];
  }

  /** The message sent for this callback describes the published order it is about. */
  ghost predicate Sound(g: Gw, p: View, c: Callback) {
    match c
    case OnFill(Trade(m, _)) =>
      m.id in p && p[m.id].symbol == m.symbol && p[m.id].side == m.side && 0 <= m.leaves
    case OnRested(o, leaves) => o.id !in p && leaves > 0
    case OnTifCancel(_) => true
    case OnCancel(c, found) =>
      g.Knows(c.id) && found ==>
        c.id in p && g.active[c.id].symbol == p[c.id].symbol && g.active[c.id].side == p[c.id].side
        && g.active[c.id].id == c.id
    case OnReplace(q, found, leaves) =>
      g.Knows(q.id) && found ==>
        && q.id in p && g.active[q.id].price == p[q.id].price && leaves > 0
        && q.symbol == p[q.id].symbol && q.side == p[q.id].side
  }

  ghost predicate AllSound(g: Gw, p: View, cs: seq<Callback>)
    decreases |cs|
  {
    cs == [] || (Sound(g, p, cs[0]) && AllSound(Notify(g, cs[0]).gw, Publish(g, p, cs[0]), cs[1..]))
  }

  lemma {:induction false} SoundAppend(g: Gw, p: View, a: seq<Callback>, b: seq<Callback>)
    requires AllSound(g, p, a) && AllSound(NotifyAll(g, a).gw, PublishAll(g, p, a), b)
    ensures AllSound(g, p, a + b)
    decreases |a|
  {
    if a == [] {
      assert a + b == b;
    } else {
      assert (a + b)[1..] == a[1..] + b;
      SoundAppend(Notify(g, a[0]).gw, Publish(g, p, a[0]), a[1..], b);
    }
  }

  lemma {:induction false} SoundOne(g: Gw, p: View, c: Callback)
    requires Sound(g, p, c)
    ensures AllSound(g, p, [c])
  {
    assert [c][1..] == [];
  }

  lemma {:induction false} NoCalls(g: Gw, v: View)
    ensures Effects(v, []) == v && NotifyAll(g, []) == Out(g, [], []) && PublishAll(g, v, []) == v && AllSound(g, v, [])
  {
  }

  lemma {:induction false} FirstCall(g: Gw, v: View, cs: seq<Callback>)
    requires cs != []
    ensures Effects(v, cs) == Effects(Effect(v, cs[0]), cs[1..])
    ensures NotifyAll(g, cs).gw == NotifyAll(Notify(g, cs[0]).gw, cs[1..]).gw
  {
  }

  // ---- The fills of a sweep ----

  /** p' is p with some orders reduced or gone. */
  ghost predicate Shrunk(p': View, p: View) {
    forall id :: id in p' ==> id in p && Reduced(p'[id], p[id])
  }

  ghost predicate AllPositive(p: View) {
    forall id :: id in p ==> p[id].leaves > 0
  }

  lemma {:induction false} FillPublishes(
    g: Gw, v: View, ghosts: View, maker: Order, taker: Order, qty: int)
    requires maker.id in v && v[maker.id] == maker && 0 < qty <= maker.leaves
    requires v.Keys !! ghosts.Keys && AllPositive(v + ghosts)
    ensures var c := OnFill(TradeOf(taker, maker, qty));
            && Sound(g, v + ghosts, c)
            && Publish(g, v + ghosts, c) == Effect(v, c) + ghosts
            && Effect(v, c).Keys !! ghosts.Keys
            && Shrunk(Effect(v, c) + ghosts, v + ghosts) && AllPositive(Effect(v, c) + ghosts)
  {
    var m := maker.(leaves := maker.leaves - qty);
    var v', p := Effect(v, OnFill(TradeOf(taker, maker, qty))), v + ghosts;
    assert v' == if m.leaves > 0 then v[m.id := m] else v - {m.id};
    hide Effect;
    forall id | id in v' + ghosts
      ensures id in p && Reduced((v' + ghosts)[id], p[id])
    {
      assert (v' + ghosts)[id] == if id == m.id then m else p[id];
    }
    assert v' + ghosts == if m.leaves > 0 then p[m.id := m] else p - {m.id};
  }

  lemma {:induction false} ShrunkTrans(p2: View, p1: View, p: View)
    requires Shrunk(p2, p1) && Shrunk(p1, p)
    ensures Shrunk(p2, p)
  {
  }

  lemma {:induction false} ShrunkSame(p: View)
    requires AllPositive(p)
    ensures Shrunk(p, p)
  {
  }

  /** These callbacks are published as they happen, and every partial publication of them is
      what was there before with some orders reduced. */
  ghost predicate Shrinking(g: Gw, v: View, ghosts: View, cs: seq<Callback>) {
    && AllSound(g, v + ghosts, cs)
    && PublishAll(g, v + ghosts, cs) == Effects(v, cs) + ghosts
    && (forall j :: 0 <= j <= |cs| ==> Shrunk(PublishAll(g, v + ghosts, cs[..j]), v + ghosts))
  }

  lemma {:induction false} ShrinkingNothing(g: Gw, v: View, ghosts: View)
    requires AllPositive(v + ghosts)
    ensures Shrinking(g, v, ghosts, [])
  {
    ShrunkSame(v + ghosts);
  }

  lemma {:induction false} ShrinkingCons(g: Gw, v: View, ghosts: View, cs: seq<Callback>)
    requires cs != [] && Sound(g, v + ghosts, cs[0]) && AllPositive(v + ghosts)
    requires var v1 := Effect(v, cs[0]);
             && Publish(g, v + ghosts, cs[0]) == v1 + ghosts && Shrunk(v1 + ghosts, v + ghosts)
             && Shrinking(Notify(g, cs[0]).gw, v1, ghosts, cs[1..])
    ensures Shrinking(g, v, ghosts, cs)
  {
    hide Shrunk, Publish, Notify, Sound, Effect, AllPositive;
    var g1, v1, p, cs1 := Notify(g, cs[0]).gw, Effect(v, cs[0]), v + ghosts, cs[1..];
    ShrunkSame(p);
    forall j | 0 <= j <= |cs|
      ensures Shrunk(PublishAll(g, p, cs[..j]), p)
    {
      if j > 0 {
        assert cs[..j][1..] == cs1[..j - 1] && cs[..j][0] == cs[0];
        ShrunkTrans(PublishAll(g1, v1 + ghosts, cs1[..j - 1]), v1 + ghosts, p);
      }
    }
  }

  lemma {:induction false} SweepPublishes(
    g: Gw, v: View, ghosts: View, symbol: Symbol, own: seq<Order>, opp: seq<Order>, slack: set<Id>, taker: Order)
    requires Shows(v, symbol, own, opp, slack) && Sweepable(symbol, own, opp) && Keyed(v)
    requires v.Keys !! ghosts.Keys && AllPositive(v + ghosts)
    ensures Shrinking(g, v, ghosts, Fills(Sweep(taker, opp).trades))
    decreases taker.leaves
  {
    hide Shows, Effect, Shrunk, Sound, Notify, Publish, AllPositive, Keyed, Shrinking, Sweepable, Sweep, Front, Fills,
         Elsewhere, Positive, TradeOf, Crosses, Holds;
    SweepableIsPositive(symbol, own, opp);
    SweepUnfolds(taker, opp);
    if Stops(taker, opp) {
      FillsCons(TradeOf(taker, taker, 0), []);
      ShrinkingNothing(g, v, ghosts);
    } else {
      var qty := Min(taker.leaves, opp[0].leaves);
      var t, taker', opp' := TradeOf(taker, opp[0], qty), taker.(leaves := taker.leaves - qty), Front(opp, qty);
      FrontListed(v, symbol, own, opp, slack);
      FillShows(v, symbol, own, opp, slack, taker, qty);
      FillPublishes(g, v, ghosts, opp[0], taker, qty);
      SweepPublishes(Notify(g, OnFill(t)).gw, Effect(v, OnFill(t)), ghosts, symbol, own, opp', slack, taker');
      FillsCons(t, Sweep(taker', opp').trades);
      ShrinkingCons(g, v, ghosts, Fills(Sweep(taker, opp).trades));
    }
  }

  lemma {:induction false} FrontListed(v: View, symbol: Symbol, own: seq<Order>, opp: seq<Order>, slack: set<Id>)
    requires Shows(v, symbol, own, opp, slack) && Sweepable(symbol, own, opp) && opp != []
    ensures opp[0].id in v && v[opp[0].id] == opp[0] && opp[0].leaves > 0
  {
  }
}
