/** What a step leaves behind outside the book. */
module Leftovers {
  import opened Options
  import opened Orders
  import opened Matching
  import opened Books
  import opened Engine
  import opened Views

  /** A replace whose re-entry will be filled at once: the order leaves its place in the
      book and enough rests opposite, within the new price, for the new quantity. */
  predicate FillsOnReentry(b: Book, q: ReplaceReq) {
    && Lookup(b, q.id).Some?
    && var o := Lookup(b, q.id).value;
       !InPlace(o, q.price, q.qty)
       && 1 <= q.qty <= Available(o.(price := q.price, qty := q.qty), b.On(o.side.Opposite()))
  }

  /** Orders the gateway keeps although they do not rest: queued ones, and dropped remainders. */
  function KeptAfter(b: Book, item: WorkItem, kept: View): View {
    match item
    case NewOrder(o) =>
      if Drops(b, o) then kept[o.id := o.(leaves := Add(b, o).leaves)] else kept - {o.id}
    case _ => kept
  }

  /** Published orders that no longer rest: each frozen as it was before the replace that filled it. */
  function GhostsAfter(b: Book, item: WorkItem, v: View, ghosts: View): View {
    if item.ReplaceItem? && FillsOnReentry(b, item.replace) && item.replace.id in v
    then ghosts[item.replace.id := v[item.replace.id]]
    else ghosts
  }

  /** Orders taken out by a replace to nothing at another price. */
  function BlanksAfter(b: Book, item: WorkItem, blanks: set<Id>): set<Id> {
    if item.ReplaceItem? && Zeroes(b, item.replace) then blanks + {item.replace.id} else blanks
  }

  ghost predicate Apartness(v: View, kept: View, ghosts: View, blanks: set<Id>) {
    && v.Keys !! kept.Keys && v.Keys !! ghosts.Keys && kept.Keys !! ghosts.Keys
    && blanks !! v.Keys && blanks !! kept.Keys && blanks !! ghosts.Keys
  }

  /** A replace that asks for what already rests. */
  predicate Idle(o: Order, q: ReplaceReq) {
    q.price == o.price && q.qty == o.qty == o.leaves
  }

  // ---- Replaces that leave the queue ----

  /** Re-entering at its own price an order meets nothing. */
  lemma {:induction false} OwnPriceMeetsNothing(symbol: Symbol, b: Book, o: Order, qty: int)
    requires Valid(symbol, b) && Lookup(b, o.id) == Some(o) && qty >= 1
    ensures Add(Cancel(b, o.id), o.(qty := qty)).leaves == qty
    ensures Add(Cancel(b, o.id), o.(qty := qty)).trades == []
  {
    LookupFinds(symbol, b, o.id);
    AbsentRemove(b.On(o.side.Opposite()), o.id);
    var k, opp := Find(b.On(o.side), o.id), b.On(o.side.Opposite());
    if opp != [] {
      assert !Crosses(o.(qty := qty, leaves := qty), opp[0].price);
    }
  }

  lemma {:induction false} NotFilled(symbol: Symbol, b: Book, o: Order, q: ReplaceReq)
    requires Valid(symbol, b) && Lookup(b, q.id) == Some(o) && o.id == q.id && q.price == o.price && q.qty >= 1
    ensures !FillsOnReentry(b, q)
  {
    LookupFinds(symbol, b, o.id);
    var k, opp := Find(b.On(o.side), o.id), b.On(o.side.Opposite());
    if opp != [] {
      assert Beyond(o.(price := q.price, qty := q.qty), opp[0].price);
    }
  }

  /** The book without the order that is about to re-enter. */
  lemma {:induction false} ReentrySides(v: View, symbol: Symbol, b: Book, o: Order, x: Id)
    requires Valid(symbol, b) && Fits(v, symbol, b) && Keyed(v) && Present(b, x) && Lookup(b, x) == Some(o)
    ensures var b1, side := Cancel(b, x), o.side.Opposite();
            && b1.On(side) == b.On(side) && !Present(b1, x)
            && Shows(v, symbol, b1.On(o.side), b1.On(side), {x}) && Sweepable(symbol, b1.On(o.side), b1.On(side))
  {
    hide Valid, Shows, Keyed, Lookup, Sweepable, Remove;
    LookupFinds(symbol, b, x);
    AbsentRemove(b.On(o.side.Opposite()), x);
    RemoveShows(v, symbol, b, x);
    CancelKeepsValid(symbol, b, x);
    BookIsSweepable(symbol, Cancel(b, x), o.side.Opposite());
    FacingSides(v, symbol, Cancel(b, x), o.side.Opposite(), {x});
  }

  lemma {:induction false} ReentryFacts(symbol: Symbol, b: Book, v: View, o: Order, q: ReplaceReq)
    requires Valid(symbol, b) && Fits(v, symbol, b) && Keyed(v) && q.qty >= 1
    requires Lookup(b, q.id) == Some(o) && !InPlace(o, q.price, q.qty)
    ensures var r := Add(Cancel(b, q.id), o.(price := q.price, qty := q.qty));
            && r == Replace(b, q.id, q.price, q.qty)
            && o.id == q.id && o.symbol == symbol && o.typ.Limit? && !o.tif.Ioc? && Present(b, q.id)
            && 0 <= r.leaves <= q.qty
            && (r.leaves == 0 <==> FillsOnReentry(b, q))
  {
    hide Valid, Present, Lookup, Shows, Keyed, Cancel, Add, InPlace, Depth, Available, CrossingTotal, Total;
    LookupFinds(symbol, b, q.id);
    CancelKeepsValid(symbol, b, q.id);
    var b1, o1, opp := Cancel(b, q.id), o.(price := q.price, qty := q.qty), b.On(o.side.Opposite());
    assert b1.On(o.side.Opposite()) == opp by { OtherSideStays(b, q.id, o.side.Opposite()); }
    AddFills(symbol, b1, o1);
    AvailableIsDepth(o1, opp);
    DepthBounds(o1, opp) by { SideIsOrderly(symbol, b, o.side.Opposite()); }
  }

  lemma {:induction false} OtherSideStays(b: Book, id: Id, side: Side)
    requires !Holds(b.On(side), id)
    ensures Cancel(b, id).On(side) == b.On(side)
  {
    AbsentRemove(b.On(side), id);
  }

  /** A replace to nothing at another price is a cancel, and is reported as found. */
  lemma {:induction false} ZeroIsCancel(symbol: Symbol, b: Book, q: ReplaceReq)
    requires Valid(symbol, b) && Zeroes(b, q)
    ensures Replace(b, q.id, q.price, q.qty) == Outcome(Cancel(b, q.id), 0, [])
    ensures Process(b, ReplaceItem(q)) == Step(Cancel(b, q.id), [OnReplace(q, true, 0)])
    ensures Present(b, q.id) && !Present(Cancel(b, q.id), q.id)
  {
    hide Valid, Present, Lookup, Cancel;
    LookupFinds(symbol, b, q.id);
    CancelKeepsValid(symbol, b, q.id);
    assert Fills([]) == [];
  }

  lemma {:induction false} EndingDropsIff(symbol: Symbol, b: Book, o: Order)
    requires Valid(symbol, b) && o.symbol == symbol && o.qty >= 1 && !Present(b, o.id) && !Killed(b, o)
    ensures var r := Add(b, o);
            && 0 <= r.leaves <= o.qty
            && (r.leaves > 0 && Ending(o, r.leaves) == [] <==> Drops(b, o))
  {
    AddFills(symbol, b, o);
    DepthBounds(o, b.On(o.side.Opposite())) by { SideIsOrderly(symbol, b, o.side.Opposite()); }
  }

  lemma {:induction false} TradesTake(symbol: Symbol, own: seq<Order>, opp: seq<Order>, taker: Order)
    requires Sweepable(symbol, own, opp) && taker.leaves >= 1
    ensures var r := Sweep(taker, opp); r.taker.leaves == taker.leaves <==> r.trades == []
  {
    SweepIsGreedy(taker, opp);
    var r := Sweep(taker, opp);
    if r.trades != [] {
      assert Serves(r.trades[0], taker, opp, 0, Filled(taker, opp));
      assert Total(opp[..0]) == 0;
    }
  }

  // ---- Who remains, and as what ----

  /** Callbacks about x change nothing of another order but its leaves, and of x neither side
      nor symbol. */
  lemma {:induction false} EffectsKeep(v: View, cs: seq<Callback>, x: Id, o: Order)
    requires forall i :: 0 <= i < |cs| ==>
               && (cs[i].OnRested? ==> cs[i].order == o && o.id == x)
               && (cs[i].OnReplace? ==> cs[i].replace.id == x)
    ensures var v' := Effects(v, cs);
            && (forall id :: id in v' && id != x ==> id in v && v'[id] == v[id].(leaves := v'[id].leaves))
            && (x in v' ==>
                  || (x in v && v'[x].side == v[x].side && v'[x].symbol == v[x].symbol)
                  || (v'[x].side == o.side && v'[x].symbol == o.symbol))
    decreases |cs|
  {
    if cs != [] {
      EffectKeeps(v, cs[0], x, o);
      hide Effect;
      EffectsKeep(Effect(v, cs[0]), cs[1..], x, o);
    }
  }

  lemma {:induction false} EffectKeeps(v: View, c: Callback, x: Id, o: Order)
    requires c.OnRested? ==> c.order == o && o.id == x
    requires c.OnReplace? ==> c.replace.id == x
    ensures var v' := Effect(v, c);
            && (forall id :: id in v' && id != x ==> id in v && v'[id] == v[id].(leaves := v'[id].leaves))
            && (x in v' ==>
                  || (x in v && v'[x].side == v[x].side && v'[x].symbol == v[x].symbol)
                  || (v'[x].side == o.side && v'[x].symbol == o.symbol))
  {
  }

  /** The order an item is about. */
  function IdOf(item: WorkItem): Id {
    match item
    case NewOrder(o) => o.id
    case CancelItem(c) => c.id
    case ReplaceItem(q) => q.id
  }

  lemma {:induction false} StepKeeps(v: View, b: Book, item: WorkItem)
    ensures var v', x := Effects(v, Process(b, item).calls), IdOf(item);
            && (forall id :: id in v' && id != x ==> id in v && v'[id] == v[id].(leaves := v'[id].leaves))
            && (x in v' ==>
                  || (x in v && v'[x].side == v[x].side && v'[x].symbol == v[x].symbol)
                  || (item.NewOrder? && v'[x].side == item.order.side && v'[x].symbol == item.order.symbol))
  {
    hide Add, Replace, Cancel, Killed, Effects, Present;
    var cs := Process(b, item).calls;
    match item
    case NewOrder(o) => EffectsKeep(v, cs, o.id, o);
    case CancelItem(c) => EffectsOne(v, cs);
    case ReplaceItem(q) => ReplaceStepKeeps(v, b, q);
  }

  lemma {:induction false} ReplaceStepKeeps(v: View, b: Book, q: ReplaceReq)
    ensures var v' := Effects(v, Process(b, ReplaceItem(q)).calls);
            && (forall id :: id in v' && id != q.id ==> id in v && v'[id] == v[id].(leaves := v'[id].leaves))
            && (q.id in v' ==> q.id in v && v'[q.id].side == v[q.id].side && v'[q.id].symbol == v[q.id].symbol)
  {
    hide Replace, Effects;
    var cs := Process(b, ReplaceItem(q)).calls;
    NothingNew(v, cs);
    if q.id in v {
      EffectsKeep(v, cs, q.id, v[q.id]);
    } else {
      var any: Order :| true;
      EffectsKeep(v, cs, q.id, any);
    }
  }

  lemma {:induction false} NothingNew(v: View, cs: seq<Callback>)
    requires forall i :: 0 <= i < |cs| ==> !cs[i].OnRested?
    ensures Effects(v, cs).Keys <= v.Keys
    decreases |cs|
  {
    if cs != [] {
      assert Effect(v, cs[0]).Keys <= v.Keys;
      hide Effect;
      NothingNew(Effect(v, cs[0]), cs[1..]);
    }
  }

  /** What is dropped, silently filled or taken out by a replace to nothing rests no more. */
  lemma {:induction false} LeavesTheView(v: View, symbol: Symbol, b: Book, item: WorkItem)
    requires Valid(symbol, b) && Fits(v, symbol, b) && Keyed(v) && Acceptable(symbol, b, v, item)
    ensures var v' := Effects(v, Process(b, item).calls);
            match item
            case NewOrder(o) => Drops(b, o) ==> o.id !in v'
            case CancelItem(_) => true
            case ReplaceItem(q) => FillsOnReentry(b, q) || Zeroes(b, q) ==> q.id in v && q.id !in v'
  {
    hide Valid, Shows, Keyed, Present, Lookup, Effects, Process, Drops, Elsewhere;
    ProcessFits(v, symbol, b, item);
    var v', b' := Effects(v, Process(b, item).calls), Process(b, item).book;
    FitsPresence(v', symbol, b', IdOf(item));
    StepKeeps(v, b, item);
    match item
    case NewOrder(o) =>
      FitsPresence(v, symbol, b, o.id);
      DroppedIsGone(symbol, b, o);
    case CancelItem(_) =>
    case ReplaceItem(q) =>
      FitsPresence(v, symbol, b, q.id);
      if FillsOnReentry(b, q) || Zeroes(b, q) {
        ReplacedIsGone(v, symbol, b, q);
      }
  }

  lemma {:induction false} DroppedIsGone(symbol: Symbol, b: Book, o: Order)
    requires Valid(symbol, b) && o.symbol == symbol && o.qty >= 1 && !Present(b, o.id)
    ensures Drops(b, o) ==> !Present(Process(b, NewOrder(o)).book, o.id)
  {
    hide Valid, Present, Lookup, Process, Add, Drops;
    OrderMeetsOneEnd(symbol, b, o);
  }

  lemma {:induction false} ReplacedIsGone(v: View, symbol: Symbol, b: Book, q: ReplaceReq)
    requires Valid(symbol, b) && Fits(v, symbol, b) && Keyed(v) && (FillsOnReentry(b, q) || Zeroes(b, q))
    ensures Present(b, q.id) && !Present(Process(b, ReplaceItem(q)).book, q.id)
  {
    hide Valid, Present, Add, Cancel, Shows, Keyed, Available;
    if Zeroes(b, q) {
      ZeroIsCancel(symbol, b, q);
    } else {
      var o := Lookup(b, q.id).value;
      hide Lookup, InPlace;
      ReentryFacts(symbol, b, v, o, q);
      CancelKeepsValid(symbol, b, q.id);
      AddPresence(symbol, Cancel(b, q.id), o.(price := q.price, qty := q.qty));
    }
  }
}
