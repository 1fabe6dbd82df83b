/** What the table and the mirror show after one cancel or replace, and what the owner is told. */
module Requests {
  import opened Options
  import opened Orders
  import opened Matching
  import opened Books
  import opened Engine
  import opened Views
  import opened MessageFactory
  import opened Gateway
  import opened Publishing
  import opened Leftovers
  import opened Announcing
  import opened Mirror
  import opened Persistence

  /** After a cancel the table and the mirror show the book if and only if there was nothing
      to cancel or the gateway has the order with a session; a restored order has none
      until its owner logs on. */
  lemma {:induction false} CancelPublishedIff(
    g: Gw, v: View, m: Mirror.State, symbol: Symbol, b: Book, c: CancelReq)
    requires Valid(symbol, b) && Fits(v, symbol, b) && Keyed(v)
    requires c.id in g.active && c.id in v ==> Stands(g.active[c.id], v[c.id], false)
    ensures var s := Process(b, CancelItem(c));
            var out, passed := NotifyAll(g, s.calls), !Present(b, c.id) || g.Knows(c.id);
            && (TableShows(ApplyEvents(Rows(v), out.events), symbol, s.book) <==> passed)
            && (Mirrors(m, v) ==> (MirrorShows(ApplyMds(m, out.packets), symbol, s.book) <==> passed))
  {
    hide Valid, Shows, Keyed, Present, Lookup, TableShows, MirrorShows, Mirrors, ApplyEvents, ApplyMds, Rows, Cancel;
    var call, b' := OnCancel(c, Present(b, c.id)), Cancel(b, c.id);
    FitsPresence(v, symbol, b, c.id);
    NotifyOne(g, call);
    PublishOne(g, v, call);
    AllPersists(g, v, [call]);
    if c.id in v {
      KeyedAt(v, c.id);
    }
    CancelFits(v, symbol, b, c);
    EffectsOne(v, [call]);
    var p, m' := Publish(g, v, call), ApplyMds(m, Notify(g, call).packets);
    if Mirrors(m, v) {
      NotifyMirrors(m, g, v, call);
    }
    if !Present(b, c.id) || g.Knows(c.id) {
      assert p == Effect(v, call);
      FollowTheBook(m', p, p, symbol, b');
    } else {
      CancelKeepsValid(symbol, b, c.id);
      StaleEntry(m', v, symbol, b', c.id);
    }
  }

  lemma {:induction false} KeyedAt(v: View, id: Id)
    requires Keyed(v) && id in v
    ensures v[id].id == id
  {
  }

  /** A published order of this symbol that does not rest, or rests differently. */
  lemma {:induction false} StaleEntry(m: Mirror.State, p: View, symbol: Symbol, b: Book, id: Id)
    requires id in p && p[id].symbol == symbol
    requires Present(b, id) && Lookup(b, id).Some? ==>
               p[id].price != Lookup(b, id).value.price || p[id].leaves != Lookup(b, id).value.leaves
    ensures !TableShows(Rows(p), symbol, b)
    ensures Mirrors(m, p) ==> !MirrorShows(m, symbol, b)
  {
    hide Consistent, Present, Lookup;
    assert Rows(p)[id] == RowOf(p[id]);
    assert Mirrors(m, p) ==> id in m.orders && m.orders[id] == MdOf(p[id]);
  }

  /** What is published is what rests, quantities as first ordered aside. */
  lemma {:induction false} FollowTheBook(m: Mirror.State, p: View, v: View, symbol: Symbol, b: Book)
    requires Alike(p, v) && Valid(symbol, b) && Fits(v, symbol, b) && Keyed(v)
    ensures TableShows(Rows(p), symbol, b)
    ensures Mirrors(m, p) ==> MirrorShows(m, symbol, b)
  {
    hide Valid, Shows, Keyed, TableShows, MirrorShows, Consistent;
    assert Rows(p) == Rows(v) && Md(p) == Md(v);
    RowsShow(v, symbol, b);
    if Mirrors(m, p) {
      MirrorsShow(m, v, symbol, b);
    }
  }

  /** Of an order the gateway does not have with a session: after a replace the table and the
      mirror show the book if and only if there was nothing to replace or it asks for the
      price and the quantity that already rest. */
  lemma {:induction false} UnknownReplacePublishedIff(
    g: Gw, v: View, m: Mirror.State, symbol: Symbol, b: Book, q: ReplaceReq)
    requires Valid(symbol, b) && Fits(v, symbol, b) && Keyed(v) && AllPositive(v) && !g.Knows(q.id)
    ensures var s := Process(b, ReplaceItem(q));
            var out := NotifyAll(g, s.calls);
            var passed := !Present(b, q.id) || (q.id in v && q.price == v[q.id].price && q.qty == v[q.id].leaves);
            && (TableShows(ApplyEvents(Rows(v), out.events), symbol, s.book) <==> passed)
            && (Mirrors(m, v) ==> (MirrorShows(ApplyMds(m, out.packets), symbol, s.book) <==> passed))
  {
    hide Valid, Shows, Keyed, Present, Lookup, TableShows, MirrorShows, Mirrors, ApplyEvents, ApplyMds, Rows, Replace,
         AllPositive, NotifyAll, Effects, AllSound, PublishAll, Alike;
    var r := Replace(b, q.id, q.price, q.qty);
    var fills, calls := Fills(r.trades), Process(b, ReplaceItem(q)).calls;
    var v1, m' := Effects(v, fills), ApplyMds(m, NotifyAll(g, calls).packets);
    FillsOnly(g, v, symbol, b, q);
    AllPersists(g, v, calls);
    if Mirrors(m, v) {
      AllMirrors(m, g, v, calls);
    }
    FitsPresence(v, symbol, b, q.id);
    if !Present(b, q.id) {
      NothingReplaced(v, symbol, b, q);
      AlikeItself(v);
      FollowTheBook(m', v, v, symbol, b);
    } else {
      LookupFinds(symbol, b, q.id);
      ReplacedDiffers(v, symbol, b, v[q.id], q);
      if q.price == v[q.id].price && q.qty == v[q.id].leaves {
        SameButQty(v, symbol, b, v[q.id], q);
        FollowTheBook(m', v, v[q.id := v[q.id].(qty := q.qty)], symbol, r.book);
      } else {
        StaleEntry(m', v1, symbol, r.book, q.id);
      }
    }
  }

  /** Only the fills of such a replace are published, and they are published soundly. */
  lemma {:induction false} FillsOnly(g: Gw, v: View, symbol: Symbol, b: Book, q: ReplaceReq)
    requires Valid(symbol, b) && Fits(v, symbol, b) && Keyed(v) && AllPositive(v) && !g.Knows(q.id)
    ensures var fills := Fills(Replace(b, q.id, q.price, q.qty).trades);
            && PublishAll(g, v, Process(b, ReplaceItem(q)).calls) == Effects(v, fills)
            && AllSound(g, v, Process(b, ReplaceItem(q)).calls)
  {
    hide Valid, Shows, Keyed, Present, Lookup, AllPositive, NotifyAll, Effects, AllSound, PublishAll, Replace, Shrunk;
    var r := Replace(b, q.id, q.price, q.qty);
    var fills, call := Fills(r.trades), OnReplace(q, r.leaves >= 0, r.leaves);
    ReplaceShrinks(g, v, symbol, b, q);
    StillUnknown(g, r.trades, q.id);
    PublishAppend(g, v, fills, [call]);
    var g1, v1 := NotifyAll(g, fills).gw, PublishAll(g, v, fills);
    PublishOne(g1, v1, call);
    SoundOne(g1, v1, call);
    SoundAppend(g, v, fills, [call]);
  }

  lemma {:induction false} ReplaceShrinks(g: Gw, v: View, symbol: Symbol, b: Book, q: ReplaceReq)
    requires Valid(symbol, b) && Fits(v, symbol, b) && Keyed(v) && AllPositive(v)
    ensures var fills := Fills(Replace(b, q.id, q.price, q.qty).trades);
            AllSound(g, v, fills) && PublishAll(g, v, fills) == Effects(v, fills)
  {
    hide Valid, Shows, Keyed, Present, Lookup, AllPositive, Sweepable, Cancel, Shrunk, AllSound, PublishAll, Effects;
    LookupFinds(symbol, b, q.id);
    assert v + map[] == v;
    if Lookup(b, q.id).Some? && !InPlace(Lookup(b, q.id).value, q.price, q.qty) {
      var o := Lookup(b, q.id).value;
      var b1, side := Cancel(b, q.id), o.side.Opposite();
      ReentrySides(v, symbol, b, o, q.id);
      SweepPublishes(g, v, map[], symbol, b1.On(o.side), b1.On(side), {q.id},
        o.(price := q.price, qty := q.qty, leaves := q.qty));
      var fills := Fills(Replace(b, q.id, q.price, q.qty).trades);
      assert Shrinking(g, v, map[], fills);
      assert Effects(v, fills) + map[] == Effects(v, fills);
    } else {
      assert Fills([]) == [];
      NoCalls(g, v);
    }
  }

  lemma {:induction false} StillUnknown(g: Gw, ts: seq<Trade>, id: Id)
    requires !g.Knows(id)
    ensures !NotifyAll(g, Fills(ts)).gw.Knows(id)
    decreases |ts|
  {
    if ts != [] {
      assert Fills(ts)[1..] == Fills(ts[1..]);
      StillUnknown(Notify(g, OnFill(ts[0])).gw, ts[1..], id);
    }
  }

  lemma {:induction false} NothingReplaced(v: View, symbol: Symbol, b: Book, q: ReplaceReq)
    requires Valid(symbol, b) && !Present(b, q.id)
    ensures Replace(b, q.id, q.price, q.qty) == Outcome(b, -1, []) && Effects(v, Fills([])) == v
  {
    hide Valid, Present, Lookup;
    LookupFinds(symbol, b, q.id);
    assert Fills([]) == [];
  }

  /** What rests after the replace, unless it asks for the resting price and quantity, has
      another price or quantity than what is published. */
  lemma {:induction false} ReplacedDiffers(v: View, symbol: Symbol, b: Book, o: Order, q: ReplaceReq)
    requires Valid(symbol, b) && Fits(v, symbol, b) && Keyed(v)
    requires Present(b, q.id) && q.id in v && v[q.id] == o && Lookup(b, q.id) == Some(o) && o.symbol == symbol
    ensures var r := Replace(b, q.id, q.price, q.qty);
            var v1 := Effects(v, Fills(r.trades));
            && q.id in v1 && v1[q.id] == o
            && (Present(r.book, q.id) && Lookup(r.book, q.id).Some? &&
                Lookup(r.book, q.id).value.price == o.price && Lookup(r.book, q.id).value.leaves == o.leaves ==>
                  q.price == o.price && q.qty == o.leaves)
  {
    hide Valid, Shows, Keyed, Present, Lookup, Add, Cancel, Effects;
    LookupFinds(symbol, b, q.id);
    var r := Replace(b, q.id, q.price, q.qty);
    EffectsOne(v, []);
    assert Fills([]) == [];
    if InPlace(o, q.price, q.qty) {
      ResizedLookup(symbol, b, o, q.qty);
    } else if q.qty < 1 {
      NoReentry(symbol, b, o, q);
    } else {
      ReentryResult(v, symbol, b, o, q);
      if q.price == o.price {
        OwnPriceMeetsNothing(symbol, b, o, q.qty);
        assert o.(price := q.price, qty := q.qty) == o.(qty := q.qty);
      }
    }
  }

  lemma {:induction false} NoReentry(symbol: Symbol, b: Book, o: Order, q: ReplaceReq)
    requires Valid(symbol, b) && Lookup(b, q.id) == Some(o) && !InPlace(o, q.price, q.qty) && q.qty < 1
    ensures Replace(b, q.id, q.price, q.qty) == Outcome(Cancel(b, q.id), q.qty, [])
    ensures !Present(Cancel(b, q.id), q.id)
  {
    hide Valid, Lookup, Present;
    CancelKeepsValid(symbol, b, q.id);
  }

  lemma {:induction false} ReentryResult(v: View, symbol: Symbol, b: Book, o: Order, q: ReplaceReq)
    requires Valid(symbol, b) && Fits(v, symbol, b) && Keyed(v) && q.qty >= 1
    requires Present(b, q.id) && q.id in v && v[q.id] == o && Lookup(b, q.id) == Some(o) && !InPlace(o, q.price, q.qty)
    ensures var r := Replace(b, q.id, q.price, q.qty);
            var v1 := Effects(v, Fills(r.trades));
            && q.id in v1 && v1[q.id] == o
            && (Present(r.book, q.id) ==>
                  Lookup(r.book, q.id) == Some(o.(price := q.price, qty := q.qty, leaves := r.leaves)))
  {
    hide Valid, Shows, Keyed, Present, Lookup, Add, Cancel, Effects, InPlace;
    LookupFinds(symbol, b, q.id);
    var b1, o1 := Cancel(b, q.id), o.(price := q.price, qty := q.qty);
    ReentryFacts(symbol, b, v, o, q);
    CancelKeepsValid(symbol, b, q.id);
    RemoveShows(v, symbol, b, q.id);
    AddShows(v, symbol, b1, o1, {q.id});
    AddPresence(symbol, b1, o1);
  }

  /** A replace for the resting price and quantity sets the order quantity and makes no trade. */
  lemma {:induction false} SameButQty(v: View, symbol: Symbol, b: Book, o: Order, q: ReplaceReq)
    requires Valid(symbol, b) && Fits(v, symbol, b) && Keyed(v) && Present(b, q.id) && q.id in v && v[q.id] == o
    requires Lookup(b, q.id) == Some(o) && q.price == o.price && q.qty == o.leaves && o.leaves > 0
    ensures var r := Replace(b, q.id, q.price, q.qty);
            var v' := v[q.id := o.(qty := q.qty)];
            && Effects(v, Fills(r.trades)) == v && Alike(v, v')
            && Valid(symbol, r.book) && Fits(v', symbol, r.book) && Keyed(v')
  {
    hide Valid, Shows, Keyed, Present, Lookup, Add, Cancel;
    LookupFinds(symbol, b, q.id);
    OwnPriceMeetsNothing(symbol, b, o, q.qty);
    assert o.(price := q.price, qty := q.qty) == o.(qty := q.qty);
    var call := OnReplace(q, true, q.qty);
    assert Process(b, ReplaceItem(q)).calls == [call] by { assert Fills([]) == []; }
    ReplaceFits(v, symbol, b, q);
    EffectsOne(v, [call]);
  }

  // ---- What the owner is told ----

  /** If a replace of a resting order is reported at all, the report is a reject when less than
      nothing is left, and otherwise claims the whole new quantity as open and nothing of it as
      traded. Either claim is right exactly if the replace made no trade. */
  lemma {:induction false} ReplaceReportIff(g: Gw, symbol: Symbol, b: Book, q: ReplaceReq)
    requires Valid(symbol, b) && Present(b, q.id)
    ensures var r := Replace(b, q.id, q.price, q.qty);
            var call := OnReplace(q, r.leaves >= 0, r.leaves);
            var g1 := NotifyAll(g, Fills(r.trades)).gw;
            var rs := Reports(g1, call);
            && Process(b, ReplaceItem(q)).calls == Fills(r.trades) + [call]
            && (rs == [] <==> !g1.Knows(q.id))
            && (rs != [] && r.leaves < 0 ==> rs == [CancelReject(q.id)])
            && (rs != [] && r.leaves >= 0 ==>
                  && |rs| == 1 && rs[0].Execution? && rs[0].exec.Replaced? && rs[0].orderQty == q.qty
                  && (rs[0].leaves == r.leaves <==> r.trades == [])
                  && (rs[0].cum == TakerQty(r.trades) <==> r.trades == []))
  {
    hide Valid, Present, Replace, NotifyAll;
    ReplaceLeavesIff(symbol, b, q.id, q.price, q.qty);
  }

  /** The report of a time-in-force cancel is right: nothing is open, and traded is what was filled. */
  lemma {:induction false} TifReportRight(g: Gw, symbol: Symbol, b: Book, o: Order, c: Callback)
    requires Valid(symbol, b) && o.symbol == symbol && o.qty >= 1 && !Present(b, o.id)
    requires c.OnTifCancel? && c in Process(b, NewOrder(o)).calls
    ensures !Present(Process(b, NewOrder(o)).book, o.id)
    ensures var filled := TakerQty(if Killed(b, o) then [] else Add(b, o).trades);
            forall r :: r in Reports(g, c) ==> r == Execution(Canceled, o.id, o.qty, 0, filled)
  {
    hide Valid, Present, Killed, Add, Process, TakerQty, Drops;
    OrderMeetsOneEnd(symbol, b, o);
    var cs, trades := Process(b, NewOrder(o)).calls, if Killed(b, o) then [] else Add(b, o).trades;
    forall j | 0 <= j < |trades|
      ensures cs[j].OnFill?
    {
      assert cs[..|trades|][j] == Fills(trades)[j];
    }
    var i :| 0 <= i < |cs| && cs[i] == c;
    assert cs[|trades|..][i - |trades|] == c;
  }

  // ---- Replaces the gateway passes on ----

  /** Of an order the gateway has with a session: after a replace the table shows the book if
      and only if the replace is honoured and is not filled on re-entry; the mirror, if and
      only if it does not ask for less than nothing of an order that rests, is not filled on
      re-entry, and is not a replace to nothing at another price. At the same price the
      mirror follows even a replace to nothing, which leaves the order in the book without
      quantity. */
  lemma {:induction false} KnownReplacePublishedIff(
    g: Gw, v: View, kept: View, m: Mirror.State, symbol: Symbol, b: Book, q: ReplaceReq)
    requires Valid(symbol, b) && Fits(v, symbol, b) && Keyed(v) && AllPositive(v)
    requires Follows(g, v, kept, true) && v.Keys !! kept.Keys && g.Knows(q.id)
    requires q.symbol == symbol && (q.id in v ==> v[q.id].side == q.side)
    ensures var s := Process(b, ReplaceItem(q));
            var out := NotifyAll(g, s.calls);
            && (TableShows(ApplyEvents(Rows(v), out.events), symbol, s.book) <==>
                  Honoured(b, q) && !FillsOnReentry(b, q))
            && (Mirrors(m, v) ==>
                  (MirrorShows(ApplyMds(m, out.packets), symbol, s.book) <==>
                     (q.qty >= 0 || !Present(b, q.id)) && !FillsOnReentry(b, q) && !Zeroes(b, q)))
  {
    hide Valid, Shows, Keyed, Present, Lookup, TableShows, MirrorShows, Mirrors, ApplyEvents, ApplyMds, Rows,
         AllPositive, NotifyAll, Process, FillsOnReentry, Follows;
    FitsPresence(v, symbol, b, q.id);
    LookupFinds(symbol, b, q.id);
    if Zeroes(b, q) {
      ZeroPublished(g, v, kept, m, symbol, b, q);
    } else if Honoured(b, q) {
      HonouredPublished(g, v, kept, m, symbol, b, q);
    } else if q.qty < 0 {
      NegativeUnpublished(g, v, m, symbol, b, q);
    } else {
      EditPublished(g, v, kept, m, symbol, b, q);
    }
    OnlyFromOneUnit(b, q);
  }

  lemma {:induction false} OnlyFromOneUnit(b: Book, q: ReplaceReq)
    ensures FillsOnReentry(b, q) ==> q.qty >= 1 && Lookup(b, q.id).Some?
  {
  }

  lemma {:induction false} RecordStands(g: Gw, v: View, kept: View, id: Id)
    requires Follows(g, v, kept, true) && id in v
    ensures id in g.active && Stands(g.active[id], v[id], true)
  {
  }

  lemma {:induction false} HonouredPublished(
    g: Gw, v: View, kept: View, m: Mirror.State, symbol: Symbol, b: Book, q: ReplaceReq)
    requires Valid(symbol, b) && Fits(v, symbol, b) && Keyed(v) && AllPositive(v)
    requires Follows(g, v, kept, true) && v.Keys !! kept.Keys && g.Knows(q.id)
    requires q.symbol == symbol && (q.id in v ==> v[q.id].side == q.side) && Honoured(b, q) && !Zeroes(b, q)
    ensures var s := Process(b, ReplaceItem(q));
            var out := NotifyAll(g, s.calls);
            && (TableShows(ApplyEvents(Rows(v), out.events), symbol, s.book) <==> !FillsOnReentry(b, q))
            && (Mirrors(m, v) ==>
                  (MirrorShows(ApplyMds(m, out.packets), symbol, s.book) <==> !FillsOnReentry(b, q)))
  {
    hide Valid, Shows, Keyed, Present, Lookup, TableShows, MirrorShows, Mirrors, ApplyEvents, ApplyMds, Rows,
         AllPositive, NotifyAll, Process, FillsOnReentry, Follows, PublishAll, AllSound, Effects, Elsewhere, Zeroes,
         Honoured;
    assert v + map[] == v;
    var item := ReplaceItem(q);
    var s, v' := Process(b, item), Effects(v, Process(b, item).calls);
    var p, m' := PublishAll(g, v, s.calls), ApplyMds(m, NotifyAll(g, s.calls).packets);
    var ghosts' := GhostsAfter(b, item, v, map[]);
    StepAnnounces(g, v, kept, map[], symbol, b, item);
    AllPersists(g, v, s.calls);
    if Mirrors(m, v) {
      AllMirrors(m, g, v, s.calls);
    }
    ProcessFits(v, symbol, b, item);
    if FillsOnReentry(b, q) {
      ReplacedIsGone(v, symbol, b, q);
      FitsPresence(v, symbol, b, q.id);
      assert (v' + ghosts')[q.id] == v[q.id];
      StaleEntry(m', p, symbol, s.book, q.id);
    } else {
      assert v' + ghosts' == v';
      FollowTheBook(m', p, v', symbol, s.book);
    }
  }

  lemma {:induction false} ZeroPublished(
    g: Gw, v: View, kept: View, m: Mirror.State, symbol: Symbol, b: Book, q: ReplaceReq)
    requires Valid(symbol, b) && Fits(v, symbol, b) && Keyed(v) && Zeroes(b, q)
    requires Follows(g, v, kept, true) && g.Knows(q.id)
    requires q.symbol == symbol && (q.id in v ==> v[q.id].side == q.side)
    ensures var s := Process(b, ReplaceItem(q));
            var out := NotifyAll(g, s.calls);
            && TableShows(ApplyEvents(Rows(v), out.events), symbol, s.book)
            && (Mirrors(m, v) ==> !MirrorShows(ApplyMds(m, out.packets), symbol, s.book))
  {
    hide Valid, Shows, Keyed, Present, Lookup, TableShows, ApplyEvents, ApplyMds, Rows, NotifyAll, Process, Follows,
         Cancel, Consistent, Effects;
    var call, b', p := OnReplace(q, true, 0), Cancel(b, q.id), v - {q.id};
    ZeroIsCancel(symbol, b, q);
    FitsPresence(v, symbol, b, q.id);
    RecordStands(g, v, kept, q.id);
    NotifyOne(g, call);
    PublishOne(g, v, call);
    AllPersists(g, v, [call]);
    RemoveShows(v, symbol, b, q.id);
    CancelKeepsValid(symbol, b, q.id);
    ElsewhereWrite(v, symbol, v[q.id]) by { KeyedAt(v, q.id); }
    RowsShow(p, symbol, b');
    if Mirrors(m, v) {
      assert Strip(m, {}) == m;
      BlankMirrors(m, v, q, {});
    }
  }

  /** A replace for less than nothing is not passed on, whatever it has done to the book. */
  lemma {:induction false} NegativeUnpublished(
    g: Gw, v: View, m: Mirror.State, symbol: Symbol, b: Book, q: ReplaceReq)
    requires Valid(symbol, b) && Fits(v, symbol, b) && Keyed(v) && Present(b, q.id) && q.qty < 0
    ensures var s := Process(b, ReplaceItem(q));
            var out := NotifyAll(g, s.calls);
            && !TableShows(ApplyEvents(Rows(v), out.events), symbol, s.book)
            && (Mirrors(m, v) ==> !MirrorShows(ApplyMds(m, out.packets), symbol, s.book))
  {
    hide Valid, Shows, Keyed, Present, Lookup, TableShows, MirrorShows, Mirrors, Rows, Replace;
    FitsPresence(v, symbol, b, q.id);
    LookupFinds(symbol, b, q.id);
    var o, r, call := v[q.id], Replace(b, q.id, q.price, q.qty), OnReplace(q, false, q.qty);
    ReplacedDiffers(v, symbol, b, o, q);
    BelowNothing(symbol, b, q);
    NotifyOne(g, call);
    StaleEntry(m, v, symbol, r.book, q.id);
  }

  lemma {:induction false} BelowNothing(symbol: Symbol, b: Book, q: ReplaceReq)
    requires Valid(symbol, b) && Present(b, q.id) && q.qty < 0
    ensures Process(b, ReplaceItem(q)) == Step(Replace(b, q.id, q.price, q.qty).book, [OnReplace(q, false, q.qty)])
    ensures Lookup(b, q.id).Some? && Lookup(b, q.id).value.leaves > 0
  {
    hide Valid, Lookup, Present, Cancel;
    LookupFinds(symbol, b, q.id);
    assert Fills([]) == [];
    var o := Lookup(b, q.id).value;
    if !InPlace(o, q.price, q.qty) {
      NoReentry(symbol, b, o, q);
    }
  }

  /** A replace to nothing at the same price: the row goes, the mirror's entry stays with
      quantity zero, as does the order in the book. */
  lemma {:induction false} EditPublished(
    g: Gw, v: View, kept: View, m: Mirror.State, symbol: Symbol, b: Book, q: ReplaceReq)
    requires Valid(symbol, b) && Fits(v, symbol, b) && Keyed(v) && Follows(g, v, kept, true) && g.Knows(q.id)
    requires q.symbol == symbol && (q.id in v ==> v[q.id].side == q.side)
    requires q.qty == 0 && Present(b, q.id) && !Zeroes(b, q)
    ensures var s := Process(b, ReplaceItem(q));
            var out := NotifyAll(g, s.calls);
            && !TableShows(ApplyEvents(Rows(v), out.events), symbol, s.book)
            && (Mirrors(m, v) ==> MirrorShows(ApplyMds(m, out.packets), symbol, s.book))
  {
    hide Valid, Shows, Keyed, Present, Lookup, MirrorShows, Mirrors, Rows, Follows, Resize;
    FitsPresence(v, symbol, b, q.id);
    LookupFinds(symbol, b, q.id);
    RecordStands(g, v, kept, q.id);
    var o, call := v[q.id], OnReplace(q, true, 0);
    var b' := Book(Resize(b.bids, q.id, 0), Resize(b.asks, q.id, 0));
    assert Process(b, ReplaceItem(q)) == Step(b', [call]) by { assert Fills([]) == []; }
    NotifyOne(g, call);
    ResizedLookup(symbol, b, o, 0);
    ResizedIds(b, q.id, 0);
    RowGone(v, q.id);
    if Mirrors(m, v) {
      MirrorsShow(m, v, symbol, b);
      assert Consistent(m) && q.id in m.orders && m.orders[q.id] == MdOf(o) by { EntryOf(m, v, q.id); }
      EditShows(m, symbol, b, q, o);
    }
  }

  lemma {:induction false} RowGone(v: View, id: Id)
    ensures id !in Rows(v) - {id}
  {
  }

  lemma {:induction false} EntryOf(m: Mirror.State, v: View, id: Id)
    requires Mirrors(m, v) && id in v
    ensures Consistent(m) && id in m.orders && m.orders[id] == MdOf(v[id])
  {
    hide Consistent;
  }

  /** An in-place edit keeps ids and every other order. */
  lemma {:induction false} ResizedIds(b: Book, id: Id, qty: int)
    ensures var b' := Book(Resize(b.bids, id, qty), Resize(b.asks, id, qty));
            && (forall x :: Present(b', x) <==> Present(b, x))
            && (forall x :: x != id ==> Lookup(b', x) == Lookup(b, x))
  {
    hide Resize;
    var b' := Book(Resize(b.bids, id, qty), Resize(b.asks, id, qty));
    forall x
      ensures Present(b', x) <==> Present(b, x)
      ensures x != id ==> Lookup(b', x) == Lookup(b, x)
    {
      SideIds(b.bids, id, qty, x);
      SideIds(b.asks, id, qty, x);
    }
  }

  lemma {:induction false} SideIds(s: seq<Order>, id: Id, qty: int, x: Id)
    ensures var t := Resize(s, id, qty);
            && |t| == |s| && (Holds(t, x) <==> Holds(s, x)) && Find(t, x) == Find(s, x)
            && (x != id && Find(s, x) < |s| ==> t[Find(s, x)] == s[Find(s, x)])
  {
    var t := Resize(s, id, qty);
    assert forall i :: 0 <= i < |s| ==> t[i].id == s[i].id;
    var a, b := Find(s, x), Find(t, x);
    assert a < |s| ==> t[a].id == x;
    assert b < |s| ==> s[b].id == x;
  }

  lemma {:induction false} LevelAfterEdit(s: seq<Order>, id: Id, qty: int, price: Price)
    ensures var k, t := Find(s, id), Resize(s, id, qty);
            LevelQty(t, price)
            == LevelQty(s, price) + if k < |s| && s[k].price == price then qty - s[k].leaves else 0
  {
    if s != [] {
      var t := Resize(s, id, qty);
      if s[0].id == id {
        assert t[1..] == s[1..];
      } else {
        LevelAfterEdit(s[1..], id, qty, price);
        assert t[1..] == Resize(s[1..], id, qty);
      }
    }
  }

  lemma {:induction false} EditShows(m: Mirror.State, symbol: Symbol, b: Book, q: ReplaceReq, o: Order)
    requires Valid(symbol, b) && MirrorShows(m, symbol, b) && Consistent(m)
    requires q.id in m.orders && m.orders[q.id] == MdOf(o)
    requires Lookup(b, q.id) == Some(o) && o.id == q.id && q.symbol == symbol && q.side == o.side && o.symbol == symbol
    requires q.price == o.price && o.leaves > 0
    ensures MirrorShows(ApplyMds(m, ReplacePackets(q, 0, o.price)), symbol,
              Book(Resize(b.bids, q.id, 0), Resize(b.asks, q.id, 0)))
  {
    hide Valid, Lookup, Present, Resize, Consistent, ApplyMds, LevelShown, Bump, Ensure;
    var b' := Book(Resize(b.bids, q.id, 0), Resize(b.asks, q.id, 0));
    var pkt := ReplacePackets(q, 0, o.price)[0];
    OnePacket(m, pkt);
    var m' := ApplyMd(m, pkt);
    ResizedIds(b, q.id, 0);
    ResizedLookup(symbol, b, o, 0);
    LevelsFilled(m);
    forall side: Side, price
      ensures LevelShown(m', symbol, b', side, price)
    {
      assert LevelShown(m, symbol, b, side, price) && LevelShown(m, symbol, b, o.side, o.price);
      LevelAfterEdit(b.On(side), q.id, 0, price);
      FoundOn(symbol, b, o, side);
      EditLevel(m, symbol, b, b', pkt, o, side, price);
    }
  }

  lemma {:induction false} FoundOn(symbol: Symbol, b: Book, o: Order, side: Side)
    requires Valid(symbol, b) && Lookup(b, o.id) == Some(o)
    ensures var k := Find(b.On(side), o.id); k < |b.On(side)| <==> side == o.side
    ensures Find(b.On(o.side), o.id) < |b.On(o.side)| && b.On(o.side)[Find(b.On(o.side), o.id)] == o
    ensures o.leaves <= LevelQty(b.On(o.side), o.price)
  {
    hide Valid;
    LookupFinds(symbol, b, o.id);
    SideIsOrderly(symbol, b, o.side);
    LevelAtLeast(b.On(o.side), Find(b.On(o.side), o.id), o.price);
  }

  lemma {:induction false} LevelAtLeast(s: seq<Order>, k: nat, price: Price)
    requires Positive(s) && k < |s| && s[k].price == price
    ensures LevelQty(s, price) >= s[k].leaves
  {
    LevelNotNegative(s[1..], price);
    if k > 0 {
      LevelAtLeast(s[1..], k - 1, price);
    }
  }

  lemma {:induction false} LevelNotNegative(s: seq<Order>, price: Price)
    requires Positive(s)
    ensures LevelQty(s, price) >= 0
  {
    if s != [] {
      LevelNotNegative(s[1..], price);
    }
  }

  /** One level of the mirror, before and after the order's quantity is taken off it. */
  lemma {:induction false} EditLevel(
    m: Mirror.State, symbol: Symbol, b: Book, b': Book, pkt: Packet, o: Order, side: Side, price: Price)
    requires LevelShown(m, symbol, b, side, price) && LevelShown(m, symbol, b, o.side, o.price) && NoEmptyLevels(m.book)
    requires pkt == Packet(ReplaceInPlacePkt, WireSide(o.side), symbol, o.price, 0, o.id)
    requires o.id in m.orders && m.orders[o.id] == MdOf(o) && 0 < o.leaves <= LevelQty(b.On(o.side), o.price)
    requires LevelQty(b'.On(side), price)
             == LevelQty(b.On(side), price) - if side == o.side && price == o.price then o.leaves else 0
    ensures LevelShown(ApplyMd(m, pkt), symbol, b', side, price)
  {
    hide LevelQty;
  }
}
