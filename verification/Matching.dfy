/** Matching one aggressor against the opposite side, laid out flat in price-then-arrival order. */
module Matching {
  import opened Orders

  /** The aggressor after matching, what is left of the opposite side, and the trades made. */
  datatype Swept = Swept(taker: Order, rest: seq<Order>, trades: seq<Trade>)

  function FillOf(o: Order, price: Price, qty: int): Fill {
    Fill(o.id, o.symbol, o.side, price, qty, o.leaves, o.qty)
  }

  /** The aggressor takes qty from a maker, at the maker's price. */
  function TradeOf(taker: Order, maker: Order, qty: int): Trade {
    Trade(FillOf(maker.(leaves := maker.leaves - qty), maker.price, qty),
          FillOf(taker.(leaves := taker.leaves - qty), maker.price, qty))
  }

  function Sweep(taker: Order, opp: seq<Order>): Swept
    decreases |opp|
  {
    if taker.leaves <= 0 || opp == [] || !Crosses(taker, opp[0].price) then
      Swept(taker, opp, [])
    else
      var qty := Min(taker.leaves, opp[0].leaves);
      var taker' := taker.(leaves := taker.leaves - qty);
      var maker' := opp[0].(leaves := opp[0].leaves - qty);
      var trade := TradeOf(taker, opp[0], qty);
      if maker'.leaves == 0 then
        var r := Sweep(taker', opp[1..]);
        r.(trades := [trade] + r.trades)
      else
        Swept(taker', opp[0 := maker'], [trade])
  }

  function Total(s: seq<Order>): int {
    if s == [] then 0 else s[0].leaves + Total(s[1..])
  }

  /** Resting quantity in front of the first price the aggressor may not trade at. */
  function Depth(taker: Order, opp: seq<Order>): int {
    if opp == [] || !Crosses(taker, opp[0].price) then 0
    else opp[0].leaves + Depth(taker, opp[1..])
  }

  /** The FOK pre-check's count. */
  function Available(o: Order, opp: seq<Order>): int {
    if opp == [] || Beyond(o, opp[0].price) then 0
    else opp[0].leaves + Available(o, opp[1..])
  }

  predicate Positive(s: seq<Order>) {
    forall i :: 0 <= i < |s| ==> s[i].leaves > 0
  }

  ghost predicate Sorted(side: Side, s: seq<Order>) {
    forall i, j :: 0 <= i < j < |s| ==> !Better(side, s[j].price, s[i].price)
  }

  // ---- Totals ----

  lemma {:induction false} TotalPositive(s: seq<Order>)
    requires Positive(s)
    ensures Total(s) >= 0
    ensures s != [] ==> Total(s) > 0
  {
    if s != [] {
      TotalPositive(s[1..]);
    }
  }

  lemma {:induction false} TotalAppend(a: seq<Order>, b: seq<Order>)
    ensures Total(a + b) == Total(a) + Total(b)
  {
    if a == [] {
      assert a + b == b;
    } else {
      assert (a + b)[1..] == a[1..] + b;
      TotalAppend(a[1..], b);
    }
  }

  lemma {:induction false} TotalPrefix(s: seq<Order>, i: nat)
    requires i < |s|
    ensures Total(s[..i + 1]) == Total(s[..i]) + s[i].leaves
  {
    assert s[..i + 1] == s[..i] + [s[i]];
    TotalAppend(s[..i], [s[i]]);
  }

  /** Quantity resting at one price. */
  function LevelQty(s: seq<Order>, price: Price): int {
    if s == [] then 0
    else (if s[0].price == price then s[0].leaves else 0) + LevelQty(s[1..], price)
  }

  lemma {:induction false} LevelQtyAppend(a: seq<Order>, b: seq<Order>, price: Price)
    ensures LevelQty(a + b, price) == LevelQty(a, price) + LevelQty(b, price)
  {
    if a == [] {
      assert a + b == b;
    } else {
      assert (a + b)[1..] == a[1..] + b;
      LevelQtyAppend(a[1..], b, price);
    }
  }

  lemma {:induction false} LevelQtyUniform(s: seq<Order>, price: Price)
    ensures (forall i :: 0 <= i < |s| ==> s[i].price == price) ==> LevelQty(s, price) == Total(s)
    ensures (forall i :: 0 <= i < |s| ==> s[i].price != price) ==> LevelQty(s, price) == 0
  {
    if s != [] {
      LevelQtyUniform(s[1..], price);
    }
  }

  lemma {:induction false} DepthBounds(taker: Order, opp: seq<Order>)
    requires Positive(opp)
    ensures 0 <= Depth(taker, opp) <= Total(opp)
  {
    if opp != [] {
      TotalPositive(opp);
      DepthBounds(taker, opp[1..]);
    }
  }

  /** What trade number i of a sweep that fills n in total must be: maker i of the flat side, served up to n. */
  ghost predicate Serves(t: Trade, taker: Order, opp: seq<Order>, i: nat, n: int)
    requires i < |opp|
  {
    var before := Total(opp[..i]);
    var qty := Min(opp[i].leaves, n - before);
    && qty > 0
    && t.maker == FillOf(opp[i].(leaves := opp[i].leaves - qty), opp[i].price, qty)
    && t.taker == FillOf(taker.(leaves := taker.leaves - before - qty), opp[i].price, qty)
  }

  /** The quantity an aggressor gets. */
  function Filled(taker: Order, opp: seq<Order>): int {
    Min(taker.leaves, Depth(taker, opp))
  }

  /** opp after its first n units are gone, m of its orders having been touched. */
  ghost predicate Consumed(rest: seq<Order>, opp: seq<Order>, m: nat, n: int)
    requires m <= |opp|
  {
    if m == 0 then n == 0 && rest == opp
    else
      && Total(opp[..m - 1]) < n <= Total(opp[..m])
      && rest == (if n == Total(opp[..m]) then opp[m..]
                  else [opp[m - 1].(leaves := Total(opp[..m]) - n)] + opp[m..])
  }

  /** The result of filling n greedily: trade i is with the i-th order of the flat side. */
  ghost predicate Greedy(r: Swept, taker: Order, opp: seq<Order>, n: int) {
    && r.taker == taker.(leaves := taker.leaves - n)
    && |r.trades| <= |opp|
    && Consumed(r.rest, opp, |r.trades|, n)
    && forall i :: 0 <= i < |r.trades| ==> Serves(r.trades[i], taker, opp, i, n)
  }

  /** Matching is greedy allocation in price-then-arrival order: the quantity filled is
      the smaller of what is wanted and what is reachable; trade i is with the i-th order
      of the flat side; only the last maker touched can be left partly filled. */
  lemma {:induction false} SweepIsGreedy(taker: Order, opp: seq<Order>)
    requires taker.leaves >= 0 && Positive(opp)
    ensures Greedy(Sweep(taker, opp), taker, opp, Filled(taker, opp))
    decreases |opp|
  {
    hide Greedy, Sweep;
    DepthBounds(taker, opp);
    if taker.leaves <= 0 || opp == [] || !Crosses(taker, opp[0].price) {
      NoMaker(taker, opp);
    } else {
      var taker' := taker.(leaves := taker.leaves - opp[0].leaves);
      DepthSameLimit(taker, taker', opp[1..]);
      DepthBounds(taker, opp[1..]);
      assert opp[0].leaves > 0;
      if taker.leaves < opp[0].leaves {
        LastMaker(taker, opp);
      } else {
        SweepIsGreedy(taker', opp[1..]);
        FirstMaker(taker, opp, Filled(taker', opp[1..]));
      }
    }
  }

  lemma {:induction false} NoMaker(taker: Order, opp: seq<Order>)
    requires taker.leaves <= 0 || opp == [] || !Crosses(taker, opp[0].price)
    ensures Greedy(Sweep(taker, opp), taker, opp, 0)
  {
  }

  lemma {:induction false} LastMaker(taker: Order, opp: seq<Order>)
    requires opp != [] && Crosses(taker, opp[0].price) && 0 < taker.leaves < opp[0].leaves
    ensures Greedy(Sweep(taker, opp), taker, opp, taker.leaves)
  {
    assert opp[..0] == [] && opp[..1] == [opp[0]];
  }

  lemma {:induction false} FirstMaker(taker: Order, opp: seq<Order>, n: int)
    requires opp != [] && Positive(opp) && n >= 0
    requires Crosses(taker, opp[0].price) && opp[0].leaves <= taker.leaves
    requires var taker' := taker.(leaves := taker.leaves - opp[0].leaves);
             Greedy(Sweep(taker', opp[1..]), taker', opp[1..], n)
    ensures Greedy(Sweep(taker, opp), taker, opp, n + opp[0].leaves)
  {
    var r' := Sweep(taker.(leaves := taker.leaves - opp[0].leaves), opp[1..]);
    hide Consumed, Serves;
    GreedyShift(taker, opp, r'.rest, r'.trades, n);
  }

  lemma {:induction false} DepthSameLimit(a: Order, b: Order, opp: seq<Order>)
    requires a == b.(leaves := a.leaves)
    ensures Depth(a, opp) == Depth(b, opp)
  {
    if opp != [] {
      DepthSameLimit(a, b, opp[1..]);
    }
  }

  /** Greedy allocation of n on the tail extends to the whole side when the head is taken completely. */
  lemma {:induction false} GreedyShift(taker: Order, opp: seq<Order>, rest: seq<Order>, ts: seq<Trade>, n: int)
    requires opp != [] && Positive(opp) && n >= 0 && |ts| < |opp|
    requires Consumed(rest, opp[1..], |ts|, n)
    requires forall i :: 0 <= i < |ts| ==>
               Serves(ts[i], taker.(leaves := taker.leaves - opp[0].leaves), opp[1..], i, n)
    ensures var head := opp[0];
            var ts' := [TradeOf(taker, head, head.leaves)] + ts;
            && Consumed(rest, opp, |ts'|, n + head.leaves)
            && forall i :: 0 <= i < |ts'| ==> Serves(ts'[i], taker, opp, i, n + head.leaves)
  {
    hide Consumed, Serves, TradeOf, Positive;
    var head := opp[0];
    var ts' := [TradeOf(taker, head, head.leaves)] + ts;
    ConsumedShift(opp, rest, |ts|, n);
    HeadServes(taker, opp, n);
    forall i | 0 < i < |ts'|
      ensures Serves(ts'[i], taker, opp, i, n + head.leaves)
    {
      assert ts'[i] == ts[i - 1];
      TailServes(ts[i - 1], taker, opp, i - 1, n);
    }
  }

  lemma {:induction false} TotalShift(opp: seq<Order>, i: nat)
    requires opp != [] && i < |opp|
    ensures Total(opp[..i + 1]) == opp[0].leaves + Total(opp[1..][..i])
  {
    assert opp[..i + 1][1..] == opp[1..][..i];
  }

  lemma {:induction false} ConsumedShift(opp: seq<Order>, rest: seq<Order>, m: nat, n: int)
    requires opp != [] && Positive(opp) && n >= 0 && m < |opp| && Consumed(rest, opp[1..], m, n)
    ensures Consumed(rest, opp, m + 1, n + opp[0].leaves)
  {
    assert opp[0].leaves > 0;
    hide Positive;
    TotalShift(opp, m);
    assert opp[m + 1..] == opp[1..][m..];
    if m == 0 {
      assert opp[..0] == [] && opp[1..][..0] == [];
    } else {
      TotalShift(opp, m - 1);
      hide Total;
      assert opp[m] == opp[1..][m - 1];
    }
  }

  lemma {:induction false} HeadServes(taker: Order, opp: seq<Order>, n: int)
    requires opp != [] && Positive(opp) && n >= 0
    ensures Serves(TradeOf(taker, opp[0], opp[0].leaves), taker, opp, 0, n + opp[0].leaves)
  {
    assert opp[..0] == [];
  }

  lemma {:induction false} TailServes(t: Trade, taker: Order, opp: seq<Order>, i: nat, n: int)
    requires opp != [] && i < |opp[1..]|
    requires Serves(t, taker.(leaves := taker.leaves - opp[0].leaves), opp[1..], i, n)
    ensures Serves(t, taker, opp, i + 1, n + opp[0].leaves)
  {
    TotalShift(opp, i);
    hide Total;
    assert opp[1..][i] == opp[i + 1];
  }

  // ---- What a sweep leaves behind ----

  /** o is o' with some of its quantity gone. */
  predicate Reduced(o: Order, o': Order) {
    o == o'.(leaves := o.leaves) && 0 < o.leaves <= o'.leaves
  }

  /** rest is a suffix of opp whose orders may have shrunk. */
  ghost predicate Remains(rest: seq<Order>, opp: seq<Order>) {
    && |rest| <= |opp|
    && forall i :: 0 <= i < |rest| ==> Reduced(rest[i], opp[i + |opp| - |rest|])
  }

  /** The unmatched part of the side is a suffix of it, and an aggressor with quantity
      left has nothing more to trade with. */
  lemma {:induction false} SweepRest(taker: Order, opp: seq<Order>)
    requires taker.leaves >= 0 && Positive(opp)
    ensures var r := Sweep(taker, opp);
            && Remains(r.rest, opp)
            && 0 <= r.taker.leaves <= taker.leaves
            && r.taker == taker.(leaves := r.taker.leaves)
            && (r.taker.leaves > 0 ==> r.rest == [] || !Crosses(taker, r.rest[0].price))
    decreases |opp|
  {
    hide Remains;
    if taker.leaves <= 0 || opp == [] || !Crosses(taker, opp[0].price) {
      AllRemains(opp);
    } else {
      assert opp[0].leaves > 0;
      var qty := Min(taker.leaves, opp[0].leaves);
      if qty == opp[0].leaves {
        SweepRest(taker.(leaves := taker.leaves - qty), opp[1..]);
        TailRemains(Sweep(taker.(leaves := taker.leaves - qty), opp[1..]).rest, opp);
      } else {
        PartRemains(opp, qty);
      }
    }
  }

  lemma {:induction false} AllRemains(opp: seq<Order>)
    requires Positive(opp)
    ensures Remains(opp, opp)
  {
  }

  lemma {:induction false} TailRemains(rest: seq<Order>, opp: seq<Order>)
    requires opp != [] && Remains(rest, opp[1..])
    ensures Remains(rest, opp)
  {
    var d := |opp| - |rest|;
    forall i | 0 <= i < |rest|
      ensures Reduced(rest[i], opp[i + d])
    {
      assert opp[1..][i + d - 1] == opp[i + d];
    }
  }

  lemma {:induction false} PartRemains(opp: seq<Order>, qty: int)
    requires opp != [] && Positive(opp) && 0 < qty < opp[0].leaves
    ensures Remains(opp[0 := opp[0].(leaves := opp[0].leaves - qty)], opp)
  {
  }

  // ---- A sweep one trade at a time ----

  lemma {:induction false} SweepKeepsTaker(taker: Order, opp: seq<Order>)
    ensures Sweep(taker, opp).taker == taker.(leaves := Sweep(taker, opp).taker.leaves)
    decreases |opp|
  {
    if !Stops(taker, opp) && taker.leaves >= opp[0].leaves {
      SweepKeepsTaker(taker.(leaves := taker.leaves - opp[0].leaves), opp[1..]);
    }
  }

  /** The opposite side after its front order gives up qty. */
  function Front(opp: seq<Order>, qty: int): seq<Order>
    requires opp != []
  {
    if qty == opp[0].leaves then opp[1..] else opp[0 := opp[0].(leaves := opp[0].leaves - qty)]
  }

  lemma {:induction false} FrontRemains(opp: seq<Order>, qty: int)
    requires opp != [] && Positive(opp) && 0 < qty <= opp[0].leaves
    ensures Remains(Front(opp, qty), opp)
    ensures Total(Front(opp, qty)) == Total(opp) - qty
    ensures var s, d := Front(opp, qty), |opp| - |Front(opp, qty)|;
            forall i :: 0 <= i < |s| && i + d > 0 ==> s[i] == opp[i + d]
  {
    hide Remains;
    if qty == opp[0].leaves {
      AllRemains(opp[1..]);
      TailRemains(opp[1..], opp);
    } else {
      assert Front(opp, qty)[1..] == opp[1..];
      PartRemains(opp, qty);
    }
  }

  /** There is nothing to trade with, or nothing left to trade. */
  predicate Stops(taker: Order, opp: seq<Order>) {
    taker.leaves <= 0 || opp == [] || !Crosses(taker, opp[0].price)
  }

  /** A sweep is over, or it is one trade with the front order and a sweep of what remains. */
  lemma {:induction false} SweepUnfolds(taker: Order, opp: seq<Order>)
    requires Positive(opp)
    ensures Stops(taker, opp) ==> Sweep(taker, opp) == Swept(taker, opp, [])
    ensures !Stops(taker, opp) ==>
              var qty := Min(taker.leaves, opp[0].leaves);
              var r := Sweep(taker.(leaves := taker.leaves - qty), Front(opp, qty));
              && 0 < qty <= opp[0].leaves && 0 <= taker.leaves - qty < taker.leaves && Positive(Front(opp, qty))
              && Sweep(taker, opp) == r.(trades := [TradeOf(taker, opp[0], qty)] + r.trades)
              && (qty < opp[0].leaves ==> r.trades == [])
  {
  }

  // ---- The FOK pre-check ----

  /** Quantity resting anywhere on the side at a price the aggressor may trade at. */
  function CrossingTotal(taker: Order, opp: seq<Order>): int {
    if opp == [] then 0
    else (if Crosses(taker, opp[0].price) then opp[0].leaves else 0) + CrossingTotal(taker, opp[1..])
  }

  lemma {:induction false} DepthIsCrossingTotal(taker: Order, opp: seq<Order>)
    requires Sorted(taker.side.Opposite(), opp)
    ensures Depth(taker, opp) == CrossingTotal(taker, opp)
  {
    if opp == [] {
    } else if Crosses(taker, opp[0].price) {
      DepthIsCrossingTotal(taker, opp[1..]);
    } else {
      NothingCrosses(taker, opp);
    }
  }

  lemma {:induction false} NothingCrosses(taker: Order, opp: seq<Order>)
    requires opp != [] ==> Sorted(taker.side.Opposite(), opp) && !Crosses(taker, opp[0].price)
    ensures CrossingTotal(taker, opp) == 0
  {
    if opp != [] {
      NothingCrosses(taker, opp[1..]);
    }
  }

  /** For market and limit orders the pre-check counts exactly what the sweep can reach. */
  lemma {:induction false} AvailableIsDepth(o: Order, opp: seq<Order>)
    requires !o.typ.Other?
    ensures Available(o, opp) == Depth(o, opp)
  {
    if opp != [] {
      AvailableIsDepth(o, opp[1..]);
    }
  }

  /** For any other order type the pre-check counts the whole side. */
  lemma {:induction false} AvailableIsTotal(o: Order, opp: seq<Order>)
    requires o.typ.Other?
    ensures Available(o, opp) == Total(opp)
  {
    if opp != [] {
      AvailableIsTotal(o, opp[1..]);
    }
  }
}
